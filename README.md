# STM-2 log reader

A Dafny model of `read_log_file` in `INFICON_STM-2_graph.py`. This function reads
the comma-separated log of an INFICON STM-2 thin-film deposition monitor. It
returns four columns: time (s), deposition rate (Å/s), thickness (Å) and crystal
frequency (Hz). It also returns two summary numbers:

- the mean rate while the shutter was open, in nm/s;
- the span of time over which the shutter was open, in s.

The shutter counts as open for a sample whose rate exceeds 0.1 Å/s. The
comparison is strict, as in the code (`r > SHUTTER_OPEN_THRESHOLD`,
`INFICON_STM-2_graph.py:109`). The comment just above it, at line 108, says
"at or above"; the model follows the code.

The model has six modules:

- `Wrappers` — the `Option` type.
- `Sequences` — generic facts about slicing, concatenating and removing an
  element from sequences, used by the proofs.
- `Text` — Python's `str.strip()` (the `isspace` characters) and
  `str.split(',')`, with their laws:
  - `strip` removes exactly the surrounding whitespace;
  - `split` yields one more field than there are commas;
  - splitting inverts joining with commas;
  - splitting distributes over a comma.
- `LogParser` — the decision the loop makes for each line, in the order the
  source makes it (in `ClassifyLine`):
  - a line starting with `Time` is a header and is skipped;
  - a line starting with `Stop Log` ends the read;
  - a line with fewer than four fields is skipped;
  - a line whose first four fields do not all parse as numbers is skipped;
  - any other line is a record.

  `ParseLog` gives the records this yields. The lemmas say which lines
  contribute what.
- `DepositionAnalyzer` — the rest of the computation:
  - the shutter-open filter;
  - the mean rate converted to nm/s;
  - the max − min time span;
  - their lemmas: edge cases, bounds, worked examples and order independence.
- `StmLog` — `ReadLogFile`, the imperative reading loop. It builds the four
  columns and the two shutter-open lists by appending, exactly as the source
  does. It is proved equal to the function `ReadLog`. Opening the file is
  modelled by the `LogSource` datatype: the lines of a readable file, or one of
  the three failures the source catches. A failure gives `None`, which stands
  for the all-`None` tuple.

Python's `float()` is a parameter, `parse: string -> Option<real>`. It gives
`None` where `float()` raises `ValueError`. All arithmetic is exact (`real`).

## Model

| member | source | states |
|---|---|---|
| StmLog.ReadLogFile | INFICON_STM-2_graph.py:76-129 | The loop is proved against `ReadLog`: skip, stop and append mirror the source's `continue`/`break`/`append`. The result is `None` exactly when the file could not be read (not found, permission denied, any other error). The loop invariant keeps the four columns equal to the columns of the records parsed so far. It keeps the shutter lists equal to the times and rates of the shutter-open records among them. |
| StmLog.ReadLog | INFICON_STM-2_graph.py:76-129 | Definition of what `read_log_file` returns: nothing for a file that cannot be read, otherwise `Summarize` of its lines. `ReadLogFile` is proved equal to it; `ColumnsFromLines`, `ReadLogEndsAtStop` and `ReadLogSkipsHeader` characterise it. |
| StmLog.Summarize | INFICON_STM-2_graph.py:83-119 | Definition of the six values for a readable log: the four columns of the parsed records and their `Analyze` summary. `ColumnsFromLines` characterises the columns. |
| StmLog.ColumnsFromLines | INFICON_STM-2_graph.py:83-105 | The four returned columns have equal length, at most the number of lines before the first stop line. Entry k of all four comes from one data line. Those lines are in file order. Every data line before the stop line contributes. |
| StmLog.ReadLogEndsAtStop | INFICON_STM-2_graph.py:86-87 | Lines after a stop line change none of the six results. |
| StmLog.ReadLogSkipsHeader | INFICON_STM-2_graph.py:84-85 | Removing a header line changes none of the six results. |
| LogParser.ParseFields | INFICON_STM-2_graph.py:93-100 | A record is produced exactly when all four leading fields parse. Time, rate, thickness and frequency are fields 0 to 3. |
| LogParser.IsHeaderLine | INFICON_STM-2_graph.py:84 | Definition: the line starts with `Time`. Characterised by `ClassifyLineCases`, `HeaderLineSkipped` and `PrefixTestsBeforeComma`. |
| LogParser.IsStopLine | INFICON_STM-2_graph.py:86 | Definition: the line starts with `Stop Log`. Characterised by `ClassifyLineCases`, `StopLineEndsParsing`, `StopIndex` and `PrefixTestsBeforeComma`. |
| LogParser.ParseField | INFICON_STM-2_graph.py:94-97 | Definition of `float(field.strip())`: the number parser applied to the trimmed field. Characterised by `TrimIgnoresPadding` and `ParseFields`. |
| LogParser.ClassifyLineCases | INFICON_STM-2_graph.py:84-100 | A line is a header iff it starts with `Time`, and a stop line iff it starts with `Stop Log`. It has too few fields iff it is neither and has fewer than three commas. Otherwise it is a record exactly when its four fields parse. |
| LogParser.ClassifyLine | INFICON_STM-2_graph.py:84-100 | Definition of the loop body's decision for one line, with the tests in the source's order. Characterised by `ClassifyLineCases`, `HeaderIsNotStop` and `ExtraFieldsIgnored`. |
| LogParser.Scan | INFICON_STM-2_graph.py:83-105 | Definition of the loop over classified lines: skip, stop or keep the record. Characterised by `ScanAppend`, `ScanSkip`, `ScanStop`, `ScanCountBound`, `ScanAllData` and `SourcesSpec`. |
| LogParser.ParseLog | INFICON_STM-2_graph.py:83-105 | Definition of the records of a log: `Scan` of the classes of its lines. Characterised by `RecordsFromLines`, `DataLinesAllKept`, `HeaderLineSkipped`, `StopLineEndsParsing` and `SkippedLineContributesNothing`. |
| LogParser.Classes | INFICON_STM-2_graph.py:83-100 | Definition: the decision of `ClassifyLine` for every line, in file order. `FirstStopIsStopIndex`, `RecordsFromLines` and `SourcesSpec` relate it to the lines. |
| LogParser.FirstStop | INFICON_STM-2_graph.py:86-87 | The position where the loop breaks: no class before it is a stop marker, and the class there is one (or there is none). |
| LogParser.HeaderIsNotStop | INFICON_STM-2_graph.py:84-87 | No line is both a header and a stop line, so the order of the two tests does not matter. |
| LogParser.HeaderLineSkipped | INFICON_STM-2_graph.py:84-85 | Inserting a header line anywhere leaves the records unchanged, and parsing goes on after it. |
| LogParser.StopLineEndsParsing | INFICON_STM-2_graph.py:86-87 | The records of `pre + [stop] + post` are those of `pre`. |
| LogParser.ShortLineSkipped | INFICON_STM-2_graph.py:89-91 | A line with fewer than four fields leaves the records unchanged. |
| LogParser.BadNumberLineSkipped | INFICON_STM-2_graph.py:93-100 | A line whose k-th leading field does not parse leaves the records unchanged. |
| LogParser.SkippedLineContributesNothing | INFICON_STM-2_graph.py:84-100 | Any header, short or unparsable line leaves the records unchanged wherever it is inserted. |
| LogParser.ExtraFieldsIgnored | INFICON_STM-2_graph.py:89-100 | Appending further comma-separated fields to a line with at least four does not change how it is read. |
| LogParser.PrefixTestsBeforeComma | INFICON_STM-2_graph.py:84-87 | Text appended after a comma does not change whether a line starts with `Time` or `Stop Log`. |
| LogParser.LeadingFieldsKept | INFICON_STM-2_graph.py:89-97 | Appending fields to a line keeps its first four fields. |
| LogParser.SomeComma | INFICON_STM-2_graph.py:89-91 | A line that splits into more than one field holds a comma. |
| LogParser.SameLeadingFields | INFICON_STM-2_graph.py:89-100 | Two non-header, non-stop lines with the same first four fields are read the same way. |
| LogParser.RecordsFromLines | INFICON_STM-2_graph.py:83-105 | Each record comes from a distinct data line before the first stop line, in increasing line order, and every such line gives one. There are at most as many records as lines before the stop line. |
| LogParser.DataLinesAllKept | INFICON_STM-2_graph.py:83-105 | A log made only of data lines gives one record per line, in order. |
| LogParser.Times | INFICON_STM-2_graph.py:102 | Definition of the `time` column (empty at line 77, appended to here): the time of each record, in order. Characterised by `ColumnsSnoc`, `ColumnsFromLines` and `TimesPermutation`. |
| LogParser.Rates | INFICON_STM-2_graph.py:103 | Definition of the `rate` column (empty at line 77, appended to here): the rate of each record, in order. Characterised by `ColumnsSnoc`, `ColumnsFromLines` and `RatesPermutation`. |
| LogParser.Thicknesses | INFICON_STM-2_graph.py:104 | Definition of the `thick` column (empty at line 77, appended to here): the thickness of each record, in order. Characterised by `ColumnsSnoc` and `ColumnsFromLines`. |
| LogParser.Frequencies | INFICON_STM-2_graph.py:105 | Definition of the `frequency` column (empty at line 77, appended to here): the frequency of each record, in order. Characterised by `ColumnsSnoc` and `ColumnsFromLines`. |
| LogParser.FirstStopIsStopIndex | INFICON_STM-2_graph.py:86-87 | The first stop marker among the line classes is the first line starting with `Stop Log`. |
| LogParser.StopIndex | INFICON_STM-2_graph.py:86-87 | The index of the first stop line: no earlier line is one, and the line there is one (or there is none). |
| LogParser.ScanAppend | INFICON_STM-2_graph.py:83-105 | Before any stop marker, the records of two stretches of lines are concatenated. |
| LogParser.ScanSkip | INFICON_STM-2_graph.py:84-100 | A skipped class contributes no record. |
| LogParser.ScanStop | INFICON_STM-2_graph.py:86-87 | Nothing after a stop marker contributes. |
| LogParser.ScanCountBound | INFICON_STM-2_graph.py:83-105 | There are no more records than classes before the first stop marker. |
| LogParser.ScanAllData | INFICON_STM-2_graph.py:102-105 | When every line is data, the record list is exactly their records. |
| LogParser.Sources | INFICON_STM-2_graph.py:83-105 | The line positions the records come from, one position per record. `SourcesSpec` characterises them. |
| LogParser.SourcesSpec | INFICON_STM-2_graph.py:83-105 | The source line of each record: strictly increasing, before the stop marker, a data line holding that record, and covering every data line. |
| Text.TrimSpec | INFICON_STM-2_graph.py:94-97 | `strip()` returns a contiguous piece whose ends are not whitespace and around which there is only whitespace. |
| Text.Trim | INFICON_STM-2_graph.py:94-97 | Definition of `str.strip()`: leading, then trailing whitespace removed. Characterised by `TrimSpec` and `TrimIgnoresPadding`. |
| Text.TrimStartSpec | INFICON_STM-2_graph.py:94-97 | Removing leading whitespace leaves a suffix that does not start with whitespace. |
| Text.TrimEndSpec | INFICON_STM-2_graph.py:94-97 | Removing trailing whitespace leaves a prefix that does not end with whitespace. |
| Text.TrimIgnoresPadding | INFICON_STM-2_graph.py:94-97 | Whitespace around a field (for example the line's `\n`) does not change what is parsed. |
| Text.SplitCommaSpec | INFICON_STM-2_graph.py:89 | `split(',')` yields one more field than there are commas. The fields hold no comma and rejoin to the line. |
| Text.SplitComma | INFICON_STM-2_graph.py:89 | Definition of `str.split(',')`: the text up to the first comma, then the split of the rest. Characterised by `SplitCommaSpec` (which combines `SplitCommaJoin` and `SplitCommaFields`), `SplitJoin` and `SplitAppend`. |
| Text.SplitJoin | INFICON_STM-2_graph.py:89 | Splitting comma-free fields joined with commas gives those fields back. |
| Text.SplitAppend | INFICON_STM-2_graph.py:89 | Splitting `a + "," + b` gives the fields of `a` followed by those of `b`. |
| Text.FirstComma | INFICON_STM-2_graph.py:89 | The end of the first field lies within the line, and there is a comma there unless it is the end of the line. |
| Text.FirstCommaIsFirst | INFICON_STM-2_graph.py:89 | No comma comes before the end of the first field. |
| Text.FirstCommaUnique | INFICON_STM-2_graph.py:89 | Any position with no comma before it and a comma (or the end of the line) at it is the end of the first field. |
| Text.FirstCommaAppend | INFICON_STM-2_graph.py:89 | The first field of `a + "," + b` ends where the first field of `a` ends. |
| Text.SplitCommaJoin | INFICON_STM-2_graph.py:89 | The fields rejoin to the line, and there is one more field than there are commas. |
| Text.SplitCommaFields | INFICON_STM-2_graph.py:89 | No field holds a comma. |
| DepositionAnalyzer.ShutterOpen | INFICON_STM-2_graph.py:109-111 | The shutter-open records are never more than the records. |
| DepositionAnalyzer.IsShutterOpen | INFICON_STM-2_graph.py:109 | Definition: the rate exceeds 0.1 Å/s. Characterised by `ThresholdRateIsClosed` and `ShutterOpenMembers`. With `ShutterOpen`, `Times` and `Rates` it gives the two lists of lines 110-111. |
| DepositionAnalyzer.Analyze | INFICON_STM-2_graph.py:109-117 | Definition of the two summary numbers, computed from the shutter-open records alone. Characterised by `NoOpenSampleGivesZero`, `SingleOpenSample`, `AvgRateAboveThreshold`, `AvgRateWithinRange`, the three worked examples and `AnalyzeOrderIndependent`. |
| DepositionAnalyzer.ClosedRecordIgnored | INFICON_STM-2_graph.py:109-117 | A record at or below the threshold, wherever it stands, changes neither the average rate nor the duration. |
| DepositionAnalyzer.ShutterOpenMembers | INFICON_STM-2_graph.py:109-111 | A record is kept exactly when it is among the records and its rate exceeds 0.1 Å/s. |
| DepositionAnalyzer.ShutterOpenCount | INFICON_STM-2_graph.py:109-111 | Kept records are kept with their multiplicity, and others not at all. |
| DepositionAnalyzer.ShutterOpenAppend | INFICON_STM-2_graph.py:109-111 | The filter keeps file order: filtering a concatenation concatenates the filtered parts. |
| DepositionAnalyzer.ShutterOpenAllOpen | INFICON_STM-2_graph.py:109-111 | Every kept record has a rate above the threshold. |
| DepositionAnalyzer.ShutterOpenNonEmpty | INFICON_STM-2_graph.py:109-111 | If any record has the shutter open, the shutter lists are not empty. |
| DepositionAnalyzer.Max | INFICON_STM-2_graph.py:117 | `max` is an element that no element exceeds. |
| DepositionAnalyzer.Min | INFICON_STM-2_graph.py:117 | `min` is an element that exceeds no element. |
| DepositionAnalyzer.OpenDuration | INFICON_STM-2_graph.py:117 | The duration is never negative, and it is 0 for a single sample. |
| DepositionAnalyzer.NoOpenSampleGivesZero | INFICON_STM-2_graph.py:114-117 | With no shutter-open sample, the average rate and the duration are both 0. |
| DepositionAnalyzer.ThresholdRateIsClosed | INFICON_STM-2_graph.py:109 | A sample whose rate is exactly 0.1 Å/s is not shutter-open. |
| DepositionAnalyzer.NoOpenSampleFiltersAll | INFICON_STM-2_graph.py:109-111 | With no record above the threshold, the shutter lists are empty. |
| DepositionAnalyzer.SingleOpenSample | INFICON_STM-2_graph.py:114-117 | One shutter-open sample gives its own rate × 0.1 and a duration of 0. |
| DepositionAnalyzer.AvgRateAboveThreshold | INFICON_STM-2_graph.py:109-114 | When any sample has the shutter open, the average rate exceeds 0.1 × 0.1 = 0.01 nm/s. |
| DepositionAnalyzer.AvgRateNmAboveThreshold | INFICON_STM-2_graph.py:114 | The converted mean of rates above 0.1 Å/s exceeds 0.01 nm/s. |
| DepositionAnalyzer.AvgRateNm | INFICON_STM-2_graph.py:114 | Definition: the mean rate times 0.1 when there is a shutter-open rate, otherwise 0. Characterised by `AvgRateNmAboveThreshold`, `AvgRateWithinRange` and `AvgRatePermutation`. |
| DepositionAnalyzer.Mean | INFICON_STM-2_graph.py:114 | Definition of `np.mean` on a non-empty list in exact arithmetic: the sum over the count. Characterised by `MeanWithinRange`, `MeanAbove` and `SumPermutation`. |
| DepositionAnalyzer.Sum | INFICON_STM-2_graph.py:114 | Definition of the sum inside `np.mean`. Characterised by `SumAppend`, `SumBounds`, `SumAbove` and `SumPermutation`. |
| DepositionAnalyzer.AvgRateWithinRange | INFICON_STM-2_graph.py:114 | The average rate lies between the smallest and the largest shutter-open rate, converted to nm/s. |
| DepositionAnalyzer.MeanWithinRange | INFICON_STM-2_graph.py:114 | The mean lies between the minimum and the maximum. |
| DepositionAnalyzer.MeanAbove | INFICON_STM-2_graph.py:114 | The mean of values all above a bound is above it. |
| DepositionAnalyzer.OpenRatesAboveThreshold | INFICON_STM-2_graph.py:109-111 | Every shutter-open rate exceeds 0.1 Å/s. |
| DepositionAnalyzer.SumBounds | INFICON_STM-2_graph.py:114 | The sum of n values between lo and hi lies between n·lo and n·hi. |
| DepositionAnalyzer.SumAbove | INFICON_STM-2_graph.py:114 | The sum of n values all above lo exceeds n·lo. |
| DepositionAnalyzer.ThreeSampleExample | INFICON_STM-2_graph.py:109-117 | For times 10, 20, 15 with rates 0.2, 0.3, 0.05 Å/s, the result is 0.025 nm/s and 10 s. |
| DepositionAnalyzer.UnsortedTimesExample | INFICON_STM-2_graph.py:117 | For records with unsorted times 30, 10, 20, the shutter-open times keep that order, and the duration is max − min = 20, which differs from their last minus their first (−10). |
| DepositionAnalyzer.SpanIncludesClosedTimeExample | INFICON_STM-2_graph.py:117 | Open at 0 and at 20 but closed at 10 gives a duration of 20: one span, not a sum of open intervals. |
| DepositionAnalyzer.AnalyzeOrderIndependent | INFICON_STM-2_graph.py:114-117 | Reordering the records leaves the average rate and the duration unchanged. |
| DepositionAnalyzer.ShutterOpenPermutation | INFICON_STM-2_graph.py:109-111 | Reordering the records reorders the shutter-open records. |
| DepositionAnalyzer.TimesPermutation | INFICON_STM-2_graph.py:109-111 | Reordering records reorders their times. |
| DepositionAnalyzer.RatesPermutation | INFICON_STM-2_graph.py:109-111 | Reordering records reorders their rates. |
| DepositionAnalyzer.AvgRatePermutation | INFICON_STM-2_graph.py:114 | The average rate in nm/s ignores the order of the rates. |
| DepositionAnalyzer.OpenDurationPermutation | INFICON_STM-2_graph.py:117 | The duration ignores the order of the times. |
| DepositionAnalyzer.SumPermutation | INFICON_STM-2_graph.py:114 | The sum ignores order. |
| DepositionAnalyzer.MaxMinPermutation | INFICON_STM-2_graph.py:117 | `max` and `min` ignore order. |
| DepositionAnalyzer.SumAppend | INFICON_STM-2_graph.py:114 | The sum of a concatenation is the sum of the sums. |
| LogParser.ParseLogStep | INFICON_STM-2_graph.py:83-105 | Loop proof step of `ReadLogFile`, one iteration on line i: a stop line ends the records, a data line puts its record first, and any other line is passed over. |
| LogParser.HeaderAt | INFICON_STM-2_graph.py:84-85 | Loop proof step of `ReadLogFile`: when line i is a header, the records from i on are those from i + 1 on. |
| LogParser.StopAt | INFICON_STM-2_graph.py:86-87 | Loop proof step of `ReadLogFile`: when line i is a stop line, there are no records from i on. |
| LogParser.ShortAt | INFICON_STM-2_graph.py:89-91 | Loop proof step of `ReadLogFile`: when line i has fewer than four fields, the records from i on are those from i + 1 on. |
| LogParser.BadNumberAt | INFICON_STM-2_graph.py:93-100 | Loop proof step of `ReadLogFile`: when a leading field of line i does not parse, the records from i on are those from i + 1 on. |
| LogParser.DataAt | INFICON_STM-2_graph.py:93-105 | Loop proof step of `ReadLogFile`: when the four fields of line i parse, its record comes first among the records from i on. |
| DepositionAnalyzer.ShutterOpenSnoc | INFICON_STM-2_graph.py:109-111 | Loop proof step of `ReadLogFile`: appending a record appends it to the filtered list exactly when it is shutter-open. |
| DepositionAnalyzer.ColumnsSnoc | INFICON_STM-2_graph.py:102-105 | Loop proof step of `ReadLogFile`: appending a record appends one entry to each of the four columns. |
| DepositionAnalyzer.OpenColumnsSnoc | INFICON_STM-2_graph.py:109-111 | Loop proof step of `ReadLogFile`: appending a record extends the shutter-open times and rates by its time and rate exactly when its rate exceeds the threshold. |

The constants `ShutterOpenThreshold` and `AngstromToNm` (both 0.1) are those of
`INFICON_STM-2_graph.py:19-20`.

## Left out

- The imports (`INFICON_STM-2_graph.py:9-15`), the font setup (`22-63`),
  the plotting functions, the file-choice dialog and the `__main__` guard
  (`131` onwards), and the `messagebox` calls in the handlers (`121-129`) are
  not part of this model. They are presentation and I/O. The three exception
  handlers are modelled only by which failure occurred, and the docstring's
  all-`None` tuple for an error (`65-75`) is `ReadLogFile`'s `None`.
- Opening and decoding the file is not modelled. The lines come in through
  `LogSource.Readable`, each as `readlines` gives it; a decoding failure is
  `Unreadable`.
- The grammar of Python's `float()` is not modelled. The parser is a parameter.
  The properties hold for every such parser.
- IEEE 754 rounding, `nan` and `inf`, and NumPy's summation order in
  `np.mean` are not modelled. Arithmetic is exact on `real`.
- `IndexError` in the inner `except` cannot arise after the length check, so
  it has no case of its own.
- `Text.IsSpace` lists the characters Python's `str.isspace` accepts. Nothing
  beyond that character set (normalisation, encodings) is modelled.
- The `enumerate` index `i` of the source is unused there, and so is not
  modelled.
