# FileRowCounterApp in Dafny

A verified model of the dispatch-and-report layer of FileRowCounterApp. The
tool scans a folder and reports the row count of each CSV and Excel file in
it. Two row counters decide by file extension whether they handle a file:
`CsvRowCounter` claims `.csv` and `ExcelRowCounter` claims `.xls` and
`.xlsx`, both ignoring case. `FileProcessor` keeps them in an ordered
registry, `[Csv, Excel]`. It filters the folder listing down to the files
some counter claims and looks the counter up again per file (first match
wins). It then writes one fixed-width line per file: the count, `ERROR`
when counting threw, or `N/A` when no counter was found.

The model takes the parsing libraries, the filesystem and the console as
inputs and outputs:

- The folder listing is a sequence of `FileEntry(name, ext, parse)` values,
  in the order the operating system returned them.
- `parse` is what the parsing library yields for that file: `Parsed(rows)`
  or `Fault`. For a CSV file `rows` is the number of records CsvHelper
  read. For a workbook it is the row count of the first table that
  ExcelDataReader built.
- Whether the folder exists is a `bool`.
- The console output is the sequence of lines `ProcessFolder` returns.

Files:

- `text_format.dfy`: modules `Options` (an `Option` type) and `TextFormat`.
  `TextFormat` covers .NET composite-format alignment (`{0,-40}`,
  `{1,10}`), `new string(c, n)`, and how an `int` argument is written in
  decimal, with a parser that reads it back.
- `row_counters.dfy`: module `RowCounters`. It holds the `Counter`
  variants, ASCII ordinal case-insensitive comparison, `CanHandle`, and
  `CountRows` over the library's answer.
- `folder_report.dfy`: module `FolderReport`. It holds the registry, the
  `Any` and `FirstOrDefault` lookups, the `Where` filter, the line layout,
  and the specification `Report` of the whole console output. It also holds
  class `FileProcessor`, whose `ProcessFolder` method is the source's
  `foreach` loop, proved equal to `Report`.
- `folder_scenarios.dfy`: module `FolderScenarios`. It holds whole-folder
  consequences: a folder of a CSV file, a workbook, a corrupt workbook and
  an unclaimed file.

Behaviour kept as the code has it:

- The Excel counter subtracts one header row without a guard. A header-only
  sheet counts 0 and an empty sheet counts -1, which is printed as `-1`.
- The header line is 53 characters wide, while the rule under it is 55
  dashes.
- Padding never truncates: a file name longer than 40 characters pushes
  the ` | ` separator to the right.
- The filter uses `Any` and the per-file step uses `FirstOrDefault`. The
  model keeps both lookups and proves they agree (`Find` is `None` exactly
  when `AnyHandles` is false). That is why `N/A` is never written.

## Model

| member | source | states |
|---|---|---|
| `RowCounters.EqualsIgnoreCase` | Program.cs:17 | `Equals(…, StringComparison.OrdinalIgnoreCase)`: it compares character by character after folding lower-case letters to capitals. Equal strings always compare equal, and strings of different lengths never do. |
| `RowCounters.CanHandle` | Program.cs:17-31 | The two `CanHandle` methods: the CSV counter compares the extension with `.csv`, and the Excel counter with `.xls` or `.xlsx`, ignoring case. Only a dot followed by three or four characters is ever claimed. |
| `RowCounters.CsvClaims` | Program.cs:17 | The CSV counter claims an extension exactly when it is `.` followed by `c`, `s` and `v`, each letter in either case. |
| `RowCounters.ExcelClaims` | Program.cs:30-31 | The Excel counter claims exactly `.xls` or `.xlsx`, each letter in either case. |
| `RowCounters.ClaimsDisjoint` | Program.cs:17-31 | No extension is claimed by both counters. |
| `RowCounters.CountRows` | Program.cs:19-40 | Counting fails exactly when the library fails. A CSV count is the record count. An Excel count plus one is the sheet's row count. A count is never below -1, and -1 only comes from an empty Excel sheet. |
| `RowCounters.ExcelCountsDataRows` | Program.cs:37-39 | A sheet of one header row and `d` data rows counts `d`. |
| `RowCounters.ExcelEdgeCases` | Program.cs:39 | A header-only sheet counts 0 and an empty sheet counts -1, because there is no guard. |
| `FolderReport.AnyHandles` | Program.cs:66 | `_counters.Any(c => c.CanHandle(ext))`: some registered counter claims the extension. An empty registry claims nothing, and nothing but a dot and three or four characters is claimed. |
| `FolderReport.Find` | Program.cs:79 | The lookup finds nothing exactly when no registered counter claims the extension. Otherwise it returns the counter at the first registry position that claims it. |
| `FolderReport.DefaultFind` | Program.cs:50-54 | With the registry `[Csv, Excel]`, the lookup returns a counter exactly when that counter claims the extension. |
| `FolderReport.FileProcessor.constructor` | Program.cs:47-55 | The registry is `[Csv, Excel]`, in that order. |
| `FolderReport.Filter` | Program.cs:65-67 | The filtered listing is never longer than the listing. |
| `FolderReport.FilterClaimed` | Program.cs:66 | Every entry that survives the filter has its extension claimed by some counter. |
| `FolderReport.FilterCounts` | Program.cs:65-67 | Each claimed entry is kept exactly as often as it is listed, and every other entry is dropped. |
| `FolderReport.FilterAppend` | Program.cs:65-67 | Filtering distributes over concatenation, so the listing order is preserved. |
| `FolderReport.DefaultFilterMembers` | Program.cs:65-67 | With the default registry, an entry is in the filtered listing exactly when it is listed and its extension is claimed by the CSV or the Excel counter. |
| `FolderScenarios.TextNotClaimed` | Program.cs:65-67 | No counter claims `.txt`, so no entry with that extension survives the filter of any listing. |
| `TextFormat.Repeat` | Program.cs:70 | `new string(c, n)`: exactly `n` characters, each of them `c`. |
| `TextFormat.PadRight` | Program.cs:69 | `{0,-40}` keeps the text whole at the left and pads it with spaces on the right to at least the width. |
| `TextFormat.PadLeft` | Program.cs:83 | `{1,10}` keeps the text whole at the right and pads it with spaces on the left to at least the width. |
| `TextFormat.NatToString` | Program.cs:83 | A non-negative count is written as one or more decimal digits without a leading zero. |
| `TextFormat.IntToString` | Program.cs:83 | A count is written as digits with a leading `-` exactly when it is negative. |
| `TextFormat.IntToStringRoundTrip` | Program.cs:83 | Reading the written count back gives the count. |
| `FolderReport.Line` | Program.cs:69-92 | One formatted line: the name aligned by `{0,-40}`, the three-character separator, then the value aligned by `{1,10}`. Its width is the larger of 40 and the name's length, plus 3, plus the larger of 10 and the value's length. |
| `FolderReport.LineLayout` | Program.cs:69 | A line is the name, spaces up to column 40, ` | `, spaces, then the value ending the line. The width is the larger of 40 and the name's length, plus 3, plus the larger of 10 and the value's length. Nothing is truncated. |
| `FolderReport.HeaderAndRuleWidths` | Program.cs:69-70 | The header is 53 characters, starting with `File` and ending with `Count`. The rule is 55 dashes. |
| `FolderReport.Report` | Program.cs:57-95 | Everything `ProcessFolder` writes. For a missing folder it is one line, `Folder not found.`. Otherwise it starts with the header and has two more lines than there are filtered files. |
| `FolderReport.MissingFolder` | Program.cs:59-63 | For a missing folder the output is the single line `Folder not found.`. |
| `FolderReport.NeverNotApplicable` | Program.cs:79-88 | Every filtered file finds a counter on the second lookup, so its value is never `N/A`. |
| `FolderReport.Value` | Program.cs:79-92 | The value column after the lookup, the count and the catch. It is `N/A` exactly when no counter claims the extension, and `ERROR` exactly when a counter claims it and counting failed. |
| `FolderReport.FileValue` | Program.cs:77-93 | For a claimed file, the value is `ERROR` exactly when counting failed. Otherwise it reads back as the counter's result. |
| `FolderReport.DefaultValue` | Program.cs:79-92 | With the default registry, a file claimed by a counter shows that counter's count, or `ERROR` when it failed. |
| `FolderReport.FailedFileLine` | Program.cs:72-93 | The output has one line per filtered file after the header and the rule. The `k`-th file's line shows `ERROR` exactly when that file failed, whatever happened to earlier files. |
| `FolderReport.ReportAppend` | Program.cs:72-94 | The report for a listing followed by more files is the first report followed by the new files' lines. |
| `FolderReport.FileProcessor.ProcessFile` | Program.cs:74-93 | One iteration of the loop (lookup, count, catch) produces the line `Report` specifies for that file. |
| `FolderReport.FileProcessor.ProcessFolder` | Program.cs:57-95 | The lines written are exactly `Report`: the diagnostic line for a missing folder, otherwise the header, the rule and one line per filtered file in listing order. |
| `FolderScenarios.FilterSkipsLast` | Program.cs:65-67 | Three claimed entries followed by an unclaimed one filter to the three, in order. |
| `FolderScenarios.ThreeLines` | Program.cs:72-93 | The loop writes the lines of three files as three lines, one per file, in listing order. |
| `FolderScenarios.ThreeOfFour` | Program.cs:65-93 | For such a listing the report is the header, the rule and the three claimed files' lines. |
| `FolderScenarios.MixedFolder` | Program.cs:57-95 | Take a CSV file of `n` records, a workbook of a header and `m` data rows, a corrupt workbook and an unclaimed file. The report is the header, the rule, `n`, `m` and `ERROR`. |

## Left out

- CsvHelper and ExcelDataReader parsing (`GetRecords<dynamic>`, `CreateReader`, `AsDataSet`, `Tables[0]`) are foreign libraries. Each file's result is given as `Parsed(rows)` or `Fault`.
- Any exception type, including a workbook with no sheet, is the one `Fault` case.
- Filesystem calls (`Directory.Exists`, `Directory.GetFiles`, `Path.GetFileName`, `Path.GetExtension`) are inputs. The model does not check that an entry's extension is the suffix of its name.
- Enumeration is not recursive, and its order is whatever the operating system returns. The model takes the order as given and sorts nothing.
- Stream and reader handles and their `using` disposal are resource plumbing with no effect on the report.
- `Encoding.RegisterProvider` is a process-wide side effect that only enables legacy code pages for the Excel reader.
- `Console.WriteLine` is modelled as the returned sequence of lines.
- `Main` and its hard-coded folder path are not part of this model.
- RowCounters.EqualsIgnoreCase: ordinal case folding is modelled for ASCII letters only. Non-ASCII case mappings of `StringComparison.OrdinalIgnoreCase` are not, because the extension literals are ASCII.
- TextFormat.IntToString: assumes the current culture writes a negative number with `-`. Culture-specific negative signs are not modelled.
- FolderReport.Line: widths count Unicode scalar values, while .NET alignment pads by `string.Length` in UTF-16 code units. A name with a character outside the Basic Multilingual Plane gets one more space per such character than .NET writes. The model keeps the simpler length because the column layout is otherwise the same.
- FolderReport.Report: `Directory.GetFiles` sits outside the `try` block, so if it throws (access denied, or the folder removed after the existence check), the exception leaves `ProcessFolder` before the header is written. The model writes the header and the rule whenever the folder exists, and does not model that exception.
- The `IFileRowCounter` interface is modelled as the closed datatype `Counter`, because the registry only ever holds these two counters.
