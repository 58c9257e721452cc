/**
 * `read_log_file`: reads an STM-2 log line by line into the time, rate,
 * thickness and frequency columns, collects the shutter-open samples on the
 * way, and returns the columns with the average shutter-open rate (nm/s) and
 * the shutter-open duration (s).
 */
module StmLog {
  import opened Wrappers
  import opened Sequences
  import opened Text
  import opened LogParser
  import opened DepositionAnalyzer

  /**
   * The outcome of opening and reading the log file: its lines (each with its
   * line terminator, as `readlines` gives them), or the reason it could not be
   * read.
   */
  datatype LogSource =
    | Readable(lines: seq<string>)
    | NotFound          // the file does not exist
    | PermissionDenied  // the file may not be read
    | Unreadable        // any other failure, such as text that is not UTF-8

  /** The six values `read_log_file` returns for a readable log. */
  datatype LogData = LogData(
    time: seq<real>, rate: seq<real>, thick: seq<real>, frequency: seq<real>,
    avgRateNm: real, openDuration: real)

  /** The columns and the summary of the records of a readable log. */
  function Summarize(lines: seq<string>, parse: NumberParser): LogData
  {
    var recs := ParseLog(lines, parse);
    var summary := Analyze(recs);
    LogData(Times(recs), Rates(recs), Thicknesses(recs), Frequencies(recs),
            summary.avgRateNm, summary.openDuration)
  }

  /**
   * What `read_log_file` returns: the data for a readable log, and nothing
   * (the all-`None` tuple) when the file could not be read.
   */
  function ReadLog(source: LogSource, parse: NumberParser): Option<LogData>
  {
    match source
    case Readable(lines) => Some(Summarize(lines, parse))
    case _ => None
  }

  /**
   * The reading loop: each line is passed over when it is a header, ends the
   * loop when it is a stop line, is passed over when it has fewer than four
   * fields or one of the first four does not parse, and is otherwise appended
   * to the four columns, and to the shutter-open lists when its rate exceeds
   * the threshold.
   */
  method ReadLogFile(source: LogSource, parse: NumberParser) returns (result: Option<LogData>)
    ensures result.None? <==> !source.Readable?
    ensures result == ReadLog(source, parse)
  {
    if !source.Readable? {
      return None;
    }
    var lines := source.lines;
    var time, rate, thick, frequency: seq<real> := [], [], [], [];
    var openTimes, openRates: seq<real> := [], [];
    ghost var recs: seq<LogRecord> := [];
    assert lines[0..] == lines;
    for i := 0 to |lines|
      invariant ParseLog(lines, parse) == recs + ParseLog(lines[i..], parse)
      invariant time == Times(recs) && rate == Rates(recs)
      invariant thick == Thicknesses(recs) && frequency == Frequencies(recs)
      invariant openTimes == Times(ShutterOpen(recs)) && openRates == Rates(ShutterOpen(recs))
    {
      var line := lines[i];
      if IsHeaderLine(line) {
        HeaderAt(lines, i, parse);
        continue;
      }
      if IsStopLine(line) {
        StopAt(lines, i, parse);
        break;
      }
      var data := SplitComma(line);
      if |data| < FieldCount {
        ShortAt(lines, i, parse);
        continue;
      }
      var t, r, th, f := ParseField(data[0], parse), ParseField(data[1], parse),
                         ParseField(data[2], parse), ParseField(data[3], parse);
      if t.None? || r.None? || th.None? || f.None? {
        BadNumberAt(lines, i, parse);
        continue;
      }
      var rec := LogRecord(t.value, r.value, th.value, f.value);
      DataAt(lines, i, parse, rec);
      SeqAssoc(recs, [rec], ParseLog(lines[i + 1..], parse));
      ColumnsSnoc(recs, rec);
      OpenColumnsSnoc(recs, rec);
      time, rate, thick, frequency := time + [rec.time], rate + [rec.rate],
                                      thick + [rec.thickness], frequency + [rec.frequency];
      if rec.rate > ShutterOpenThreshold {
        openTimes, openRates := openTimes + [rec.time], openRates + [rec.rate];
      }
      recs := recs + [rec];
    }
    assert recs == ParseLog(lines, parse);
    var avgRateNm := AvgRateNm(openRates);
    var openDuration := OpenDuration(openTimes);
    assert Analyze(recs) == DepositionSummary(avgRateNm, openDuration);
    result := Some(LogData(time, rate, thick, frequency, avgRateNm, openDuration));
  }

  /**
   * The four columns of a readable log have one entry per record, at most
   * one per line before the first stop line; entry `k` of all four comes
   * from the same data line, those lines are in file order, and every data
   * line before the stop line is among them.
   */
  lemma ColumnsFromLines(lines: seq<string>, parse: NumberParser)
    ensures ReadLog(Readable(lines), parse).Some?
    ensures var d, idx := ReadLog(Readable(lines), parse).value, Sources(Classes(lines, parse));
      && |d.time| == |d.rate| == |d.thick| == |d.frequency| == |idx| <= StopIndex(lines)
      && (forall k :: 0 <= k < |idx| ==>
            idx[k] < StopIndex(lines) &&
            ClassifyLine(lines[idx[k]], parse) == Data(LogRecord(d.time[k], d.rate[k], d.thick[k], d.frequency[k])))
      && (forall j, k :: 0 <= j < k < |idx| ==> idx[j] < idx[k])
      && (forall n :: 0 <= n < StopIndex(lines) && ClassifyLine(lines[n], parse).Data? ==> n in idx)
  {
    var recs := ParseLog(lines, parse);
    RecordsFromLines(lines, parse);
    var d := Summarize(lines, parse);
    assert forall k :: 0 <= k < |recs| ==>
      recs[k] == LogRecord(d.time[k], d.rate[k], d.thick[k], d.frequency[k]);
  }

  /** Whatever follows a stop line has no effect on any of the six results. */
  lemma ReadLogEndsAtStop(pre: seq<string>, stop: string, post: seq<string>, parse: NumberParser)
    requires IsStopLine(stop)
    ensures ReadLog(Readable(pre + [stop] + post), parse) == ReadLog(Readable(pre), parse)
  {
    StopLineEndsParsing(pre, stop, post, parse);
  }

  /** A header line, wherever it stands, has no effect on any of the six results. */
  lemma ReadLogSkipsHeader(pre: seq<string>, line: string, post: seq<string>, parse: NumberParser)
    requires IsHeaderLine(line)
    ensures ReadLog(Readable(pre + [line] + post), parse) == ReadLog(Readable(pre + post), parse)
  {
    HeaderLineSkipped(pre, line, post, parse);
  }
}
