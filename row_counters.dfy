/**
 * The two row counters of Program.cs: which extensions each one claims
 * (`CanHandle`) and how each turns what its parsing library read into a
 * row count (`CountRows`). The libraries themselves (CsvHelper and
 * ExcelDataReader) are not part of this model: what they yield for a
 * file is given as a `Parse` value.
 */
module RowCounters {

  /** The counter variants, `CsvRowCounter` and `ExcelRowCounter`. */
  datatype Counter = Csv | Excel

  /**
   * What the parsing library yields for one file: the number of records
   * CsvHelper read (CSV), or the number of rows in the first table of the
   * data set ExcelDataReader built (Excel); or a failure of any kind
   * (missing file, malformed content, no sheet at all).
   */
  datatype Parse = Parsed(rows: nat) | Fault

  /** The outcome of `CountRows`: a count, or the exception it raised. */
  datatype Count = Counted(n: int) | Failed

  /** Ordinal case folding of one character, restricted to ASCII letters. */
  function FoldCase(c: char): char
  {
    if 'a' <= c <= 'z' then (c as int - 32) as char else c
  }

  /**
   * `a.Equals(b, StringComparison.OrdinalIgnoreCase)` over ASCII: equal
   * strings compare equal, and only strings of the same length do.
   */
  predicate EqualsIgnoreCase(a: string, b: string): (r: bool)
    ensures a == b ==> r
    ensures r ==> |a| == |b|
  {
    |a| == |b| && forall i :: 0 <= i < |a| ==> FoldCase(a[i]) == FoldCase(b[i])
  }

  /**
   * Whether counter `c` claims the file extension `ext` (dot included).
   * Only a dot followed by three or four characters is ever claimed;
   * `CsvClaims` and `ExcelClaims` say exactly which.
   */
  predicate CanHandle(c: Counter, ext: string): (r: bool)
    ensures r ==> (|ext| == 4 || |ext| == 5) && ext[0] == '.'
  {
    match c
    case Csv => EqualsIgnoreCase(ext, ".csv")
    case Excel => EqualsIgnoreCase(ext, ".xls") || EqualsIgnoreCase(ext, ".xlsx")
  }

  /**
   * `CountRows` with the library's answer given: the CSV counter reports
   * the record count as is; the Excel counter takes one row off for the
   * header, unconditionally.
   */
  function CountRows(c: Counter, p: Parse): (r: Count)
    ensures r.Failed? <==> p.Fault?
    ensures r.Counted? ==> r.n >= -1
    ensures r.Counted? && r.n < 0 ==> c == Excel && p == Parsed(0)
    ensures r.Counted? && c == Csv ==> r.n == p.rows
    ensures r.Counted? && c == Excel ==> r.n + 1 == p.rows
  {
    match p
    case Fault => Failed
    case Parsed(rows) =>
      match c
      case Csv => Counted(rows)
      case Excel => Counted(rows - 1)
  }

  /** Folding leaves a character alone or maps a lower-case letter to its capital. */
  lemma FoldCaseIsLetter(x: char, lower: char)
    requires 'a' <= lower <= 'z'
    ensures FoldCase(x) == FoldCase(lower) <==> x == lower || x as int == lower as int - 32
  {
  }

  /** The CSV counter claims exactly the spellings of `.csv` in any mix of cases. */
  lemma CsvClaims(ext: string)
    ensures CanHandle(Csv, ext) <==>
      |ext| == 4 && ext[0] == '.' && ext[1] in "cC" && ext[2] in "sS" && ext[3] in "vV"
  {
    if |ext| == 4 {
      FoldCaseIsLetter(ext[1], 'c');
      FoldCaseIsLetter(ext[2], 's');
      FoldCaseIsLetter(ext[3], 'v');
    }
  }

  /** The Excel counter claims exactly the spellings of `.xls` and `.xlsx` in any mix of cases. */
  lemma ExcelClaims(ext: string)
    ensures CanHandle(Excel, ext) <==>
      (|ext| == 4 || |ext| == 5) && ext[0] == '.' &&
      ext[1] in "xX" && ext[2] in "lL" && ext[3] in "sS" && (|ext| == 5 ==> ext[4] in "xX")
  {
    if |ext| == 4 || |ext| == 5 {
      FoldCaseIsLetter(ext[1], 'x');
      FoldCaseIsLetter(ext[2], 'l');
      FoldCaseIsLetter(ext[3], 's');
      if |ext| == 5 {
        FoldCaseIsLetter(ext[4], 'x');
      }
    }
  }

  /** No extension is claimed by both counters. */
  lemma ClaimsDisjoint(ext: string)
    ensures !(CanHandle(Csv, ext) && CanHandle(Excel, ext))
  {
    CsvClaims(ext);
    ExcelClaims(ext);
  }

  /** A sheet of one header row and `d` data rows counts `d` rows. */
  lemma ExcelCountsDataRows(d: nat)
    ensures CountRows(Excel, Parsed(d + 1)) == Counted(d)
  {
  }

  /** A header-only sheet counts 0; an empty sheet counts -1, as there is no guard. */
  lemma ExcelEdgeCases()
    ensures CountRows(Excel, Parsed(1)) == Counted(0)
    ensures CountRows(Excel, Parsed(0)) == Counted(-1)
  {
  }
}
