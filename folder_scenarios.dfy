/**
 * Whole-folder consequences of the report for concrete kinds of listing:
 * which files appear, in what order and with which value.
 */
module FolderScenarios {
  import opened TextFormat
  import opened RowCounters
  import opened FolderReport

  /** Neither counter claims `.txt`, so no `.txt` file survives the filter. */
  lemma TextNotClaimed(files: seq<FileEntry>)
    ensures !AnyHandles(DefaultCounters, ".txt")
    ensures forall f :: f in Filter(DefaultCounters, files) ==> f.ext != ".txt"
  {
    CsvClaims(".txt");
    ExcelClaims(".txt");
    forall f | f in Filter(DefaultCounters, files)
      ensures f.ext != ".txt"
    {
      var k :| 0 <= k < |Filter(DefaultCounters, files)| && Filter(DefaultCounters, files)[k] == f;
      FilterClaimed(DefaultCounters, files, k);
    }
  }

  /** Three claimed entries followed by an unclaimed one: the last is dropped. */
  lemma FilterSkipsLast(counters: seq<Counter>, a: FileEntry, b: FileEntry, c: FileEntry, d: FileEntry)
    requires AnyHandles(counters, a.ext)
    requires AnyHandles(counters, b.ext)
    requires AnyHandles(counters, c.ext)
    requires !AnyHandles(counters, d.ext)
    ensures Filter(counters, [a, b, c, d]) == [a, b, c]
  {
    var s3, s2, s1, s0 := [d], [c, d], [b, c, d], [a, b, c, d];
    assert s3 == [d] + [];
    assert s2 == [c] + s3;
    assert s1 == [b] + s2;
    assert s0 == [a] + s1;
    FilterCons(counters, d, []);
    FilterCons(counters, c, s3);
    FilterCons(counters, b, s2);
    FilterCons(counters, a, s1);
  }

  /** The lines of three files are their three lines, in order. */
  lemma ThreeLines(counters: seq<Counter>, a: FileEntry, b: FileEntry, c: FileEntry)
    ensures FileLines(counters, [a, b, c]) ==
      [Line(a.name, Value(counters, a)), Line(b.name, Value(counters, b)), Line(c.name, Value(counters, c))]
  {
    assert [a, b, c] == [a] + ([b] + [c]);
    FileLinesAppend(counters, [b], [c]);
    FileLinesAppend(counters, [a], [b] + [c]);
    assert FileLines(counters, [a]) == [Line(a.name, Value(counters, a))];
    assert FileLines(counters, [b]) == [Line(b.name, Value(counters, b))];
    assert FileLines(counters, [c]) == [Line(c.name, Value(counters, c))];
  }

  /** The report for three claimed files and an unclaimed one: header, rule, three lines. */
  lemma ThreeOfFour(counters: seq<Counter>, a: FileEntry, b: FileEntry, c: FileEntry, d: FileEntry)
    requires AnyHandles(counters, a.ext)
    requires AnyHandles(counters, b.ext)
    requires AnyHandles(counters, c.ext)
    requires !AnyHandles(counters, d.ext)
    ensures Report(counters, true, [a, b, c, d]) == [Header, Rule,
      Line(a.name, Value(counters, a)), Line(b.name, Value(counters, b)), Line(c.name, Value(counters, c))]
  {
    FilterSkipsLast(counters, a, b, c, d);
    ThreeLines(counters, a, b, c);
    var la, lb, lc := Line(a.name, Value(counters, a)), Line(b.name, Value(counters, b)), Line(c.name, Value(counters, c));
    assert Report(counters, true, [a, b, c, d]) == [Header, Rule] + [la, lb, lc];
  }

  /**
   * A folder holding a CSV file of `n` records, a workbook of a header and
   * `m` data rows, a corrupt workbook and an unclaimed file: three lines
   * follow the rule, the unclaimed file is skipped and the corrupt
   * workbook shows `ERROR`.
   */
  lemma MixedFolder(a: FileEntry, b: FileEntry, c: FileEntry, d: FileEntry, n: nat, m: nat)
    requires CanHandle(Csv, a.ext) && a.parse == Parsed(n)
    requires CanHandle(Excel, b.ext) && b.parse == Parsed(m + 1)
    requires CanHandle(Excel, c.ext) && c.parse == Fault
    requires !AnyHandles(DefaultCounters, d.ext)
    ensures Report(DefaultCounters, true, [a, b, c, d]) == [Header, Rule,
      Line(a.name, IntToString(n)), Line(b.name, IntToString(m)), Line(c.name, ErrorValue)]
  {
    DefaultValue(a, Csv);
    DefaultValue(b, Excel);
    DefaultValue(c, Excel);
    assert Csv in DefaultCounters && Excel in DefaultCounters;
    ThreeOfFour(DefaultCounters, a, b, c, d);
  }
}
