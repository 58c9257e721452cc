/**
 * The line classifier and record parser of `read_log_file`: which lines of an
 * STM-2 log become records, and which are skipped or end the read.
 */
module LogParser {
  import opened Wrappers
  import opened Text

  /** One sample of the monitor: time (s), rate (Å/s), thickness (Å), frequency (Hz). */
  datatype LogRecord = LogRecord(time: real, rate: real, thickness: real, frequency: real)

  /** What the reader does with one line of the log. */
  datatype LineClass =
    | Header                  // starts with "Time": skipped, reading goes on
    | StopMarker              // starts with "Stop Log": reading ends
    | TooFewFields            // fewer than four comma-separated fields: skipped
    | BadNumber               // one of the first four fields is not a number: skipped
    | Data(record: LogRecord) // appended to the four columns

  /**
   * Python's `float()` on a trimmed field: `Some(x)` when it accepts the
   * text, `None` when it raises `ValueError`. Left abstract.
   */
  type NumberParser = string -> Option<real>

  const HeaderPrefix: string := "Time"
  const StopPrefix: string := "Stop Log"
  /** The number of leading fields a data line must have and that are read. */
  const FieldCount: nat := 4

  predicate IsHeaderLine(line: string)
  {
    HeaderPrefix <= line
  }

  predicate IsStopLine(line: string)
  {
    StopPrefix <= line
  }

  /** `float(field.strip())`. */
  function ParseField(field: string, parse: NumberParser): Option<real>
  {
    parse(Trim(field))
  }

  /**
   * The four leading fields as a record: present exactly when all four parse,
   * taken in the order time, rate, thickness, frequency.
   */
  function ParseFields(fields: seq<string>, parse: NumberParser): (r: Option<LogRecord>)
    requires |fields| >= FieldCount
    ensures r.Some? <==> forall k :: 0 <= k < FieldCount ==> ParseField(fields[k], parse).Some?
    ensures r.Some? ==>
      && ParseField(fields[0], parse) == Some(r.value.time)
      && ParseField(fields[1], parse) == Some(r.value.rate)
      && ParseField(fields[2], parse) == Some(r.value.thickness)
      && ParseField(fields[3], parse) == Some(r.value.frequency)
  {
    var t, r, th, f := ParseField(fields[0], parse), ParseField(fields[1], parse),
                       ParseField(fields[2], parse), ParseField(fields[3], parse);
    if t.Some? && r.Some? && th.Some? && f.Some? then
      Some(LogRecord(t.value, r.value, th.value, f.value))
    else
      None
  }

  /**
   * The decision the reader takes on one raw line: header first, then stop
   * line, then the field count, then the four numbers.
   */
  function ClassifyLine(line: string, parse: NumberParser): LineClass
  {
    if IsHeaderLine(line) then Header
    else if IsStopLine(line) then StopMarker
    else
      var fields := SplitComma(line);
      if |fields| < FieldCount then TooFewFields
      else
        match ParseFields(fields, parse)
        case Some(rec) => Data(rec)
        case None => BadNumber
  }

  /** No line is both a header and a stop line. */
  lemma HeaderIsNotStop(line: string)
    ensures !(IsHeaderLine(line) && IsStopLine(line))
  {
    if IsHeaderLine(line) && |line| > 0 {
      assert line[0] == HeaderPrefix[0] == 'T';
      assert StopPrefix[0] == 'S';
    }
  }

  /**
   * What `ClassifyLine` decides, in terms of the raw line: a line is a header
   * exactly when it starts with "Time", a stop line exactly when it starts
   * with "Stop Log", too short exactly when it is neither and holds fewer than
   * three commas, and otherwise its record is there exactly when its first
   * four fields parse.
   */
  lemma ClassifyLineCases(line: string, parse: NumberParser)
    ensures ClassifyLine(line, parse) == Header <==> IsHeaderLine(line)
    ensures ClassifyLine(line, parse) == StopMarker <==> IsStopLine(line)
    ensures ClassifyLine(line, parse) == TooFewFields <==>
      !IsHeaderLine(line) && !IsStopLine(line) && multiset(line)[','] < FieldCount - 1
    ensures !IsHeaderLine(line) && !IsStopLine(line) && multiset(line)[','] >= FieldCount - 1 ==>
      |SplitComma(line)| >= FieldCount &&
      ClassifyLine(line, parse) == match ParseFields(SplitComma(line), parse)
        case Some(rec) => Data(rec)
        case None => BadNumber
  {
    HeaderIsNotStop(line);
    SplitCommaSpec(line);
  }

  /** The class of every line, in file order. */
  function Classes(lines: seq<string>, parse: NumberParser): seq<LineClass>
  {
    seq(|lines|, k requires 0 <= k < |lines| => ClassifyLine(lines[k], parse))
  }

  /**
   * The reading loop over classified lines: headers, short lines and lines
   * with a bad number are passed over, a stop line ends the read, and every
   * data line contributes its record.
   */
  function Scan(cs: seq<LineClass>): seq<LogRecord>
  {
    if cs == [] then []
    else
      match cs[0]
      case StopMarker => []
      case Data(rec) => [rec] + Scan(cs[1..])
      case _ => Scan(cs[1..])
  }

  /** The records of a log, in file order. */
  function ParseLog(lines: seq<string>, parse: NumberParser): seq<LogRecord>
  {
    Scan(Classes(lines, parse))
  }

  /**
   * One step of the reading loop on raw lines: the line at `i` either ends
   * the read, contributes its record ahead of the rest, or is passed over.
   */
  lemma ParseLogStep(lines: seq<string>, i: nat, parse: NumberParser)
    requires i < |lines|
    ensures ParseLog(lines[i..], parse) ==
      match ClassifyLine(lines[i], parse)
      case StopMarker => []
      case Data(rec) => [rec] + ParseLog(lines[i + 1..], parse)
      case _ => ParseLog(lines[i + 1..], parse)
  {
    assert lines[i..] == [lines[i]] + lines[i + 1..];
    ClassesAppend([lines[i]], lines[i + 1..], parse);
    Classes1(lines[i], parse);
    var cs := Classes(lines[i..], parse);
    assert cs[1..] == Classes(lines[i + 1..], parse);
  }

  /** A header line at `i` is passed over. */
  lemma HeaderAt(lines: seq<string>, i: nat, parse: NumberParser)
    requires i < |lines| && IsHeaderLine(lines[i])
    ensures ParseLog(lines[i..], parse) == ParseLog(lines[i + 1..], parse)
  {
    ParseLogStep(lines, i, parse);
  }

  /** A stop line at `i` ends the records; it cannot also be a header. */
  lemma StopAt(lines: seq<string>, i: nat, parse: NumberParser)
    requires i < |lines| && IsStopLine(lines[i])
    ensures ParseLog(lines[i..], parse) == []
  {
    HeaderIsNotStop(lines[i]);
    ParseLogStep(lines, i, parse);
  }

  /** A line at `i` with fewer than four fields is passed over. */
  lemma ShortAt(lines: seq<string>, i: nat, parse: NumberParser)
    requires i < |lines| && !IsHeaderLine(lines[i]) && !IsStopLine(lines[i])
    requires |SplitComma(lines[i])| < FieldCount
    ensures ParseLog(lines[i..], parse) == ParseLog(lines[i + 1..], parse)
  {
    ParseLogStep(lines, i, parse);
  }

  /** A line at `i` whose four leading fields do not all parse is passed over. */
  lemma BadNumberAt(lines: seq<string>, i: nat, parse: NumberParser)
    requires i < |lines| && !IsHeaderLine(lines[i]) && !IsStopLine(lines[i])
    requires |SplitComma(lines[i])| >= FieldCount && ParseFields(SplitComma(lines[i]), parse).None?
    ensures ParseLog(lines[i..], parse) == ParseLog(lines[i + 1..], parse)
  {
    ParseLogStep(lines, i, parse);
  }

  /** A data line at `i` contributes its record ahead of the rest. */
  lemma DataAt(lines: seq<string>, i: nat, parse: NumberParser, rec: LogRecord)
    requires i < |lines| && !IsHeaderLine(lines[i]) && !IsStopLine(lines[i])
    requires |SplitComma(lines[i])| >= FieldCount && ParseFields(SplitComma(lines[i]), parse) == Some(rec)
    ensures ParseLog(lines[i..], parse) == [rec] + ParseLog(lines[i + 1..], parse)
  {
    ParseLogStep(lines, i, parse);
  }

  /** The index of the first stop marker, or `|cs|` when there is none. */
  function FirstStop(cs: seq<LineClass>): (n: nat)
    ensures n <= |cs|
    ensures forall k :: 0 <= k < n ==> cs[k] != StopMarker
    ensures n < |cs| ==> cs[n] == StopMarker
  {
    if cs == [] || cs[0] == StopMarker then 0 else 1 + FirstStop(cs[1..])
  }

  /** The index of the first stop line, or `|lines|` when there is none. */
  function StopIndex(lines: seq<string>): (n: nat)
    ensures n <= |lines|
    ensures forall k :: 0 <= k < n ==> !IsStopLine(lines[k])
    ensures n < |lines| ==> IsStopLine(lines[n])
  {
    if lines == [] || IsStopLine(lines[0]) then 0 else 1 + StopIndex(lines[1..])
  }

  // Properties of the reading loop, stated on classified lines.

  /** Classes before any stop marker contribute independently of what follows them. */
  lemma {:induction false} ScanAppend(a: seq<LineClass>, b: seq<LineClass>)
    requires StopMarker !in a
    ensures Scan(a + b) == Scan(a) + Scan(b)
  {
    if a == [] {
      assert a + b == b;
    } else {
      assert (a + b)[0] == a[0];
      assert (a + b)[1..] == a[1..] + b;
      ScanAppend(a[1..], b);
    }
  }

  /** A skipped class adds nothing, wherever it stands. */
  lemma {:induction false} ScanSkip(pre: seq<LineClass>, c: LineClass, post: seq<LineClass>)
    requires c in {Header, TooFewFields, BadNumber}
    ensures Scan(pre + [c] + post) == Scan(pre + post)
  {
    if pre == [] {
      assert pre + [c] + post == [c] + post;
      assert ([c] + post)[1..] == post;
      assert pre + post == post;
    } else {
      assert (pre + [c] + post)[0] == (pre + post)[0] == pre[0];
      assert (pre + [c] + post)[1..] == pre[1..] + [c] + post;
      assert (pre + post)[1..] == pre[1..] + post;
      ScanSkip(pre[1..], c, post);
    }
  }

  /** Nothing after a stop marker reaches the result. */
  lemma {:induction false} ScanStop(pre: seq<LineClass>, post: seq<LineClass>)
    ensures Scan(pre + [StopMarker] + post) == Scan(pre)
  {
    if pre == [] {
      assert (pre + [StopMarker] + post)[0] == StopMarker;
    } else {
      assert (pre + [StopMarker] + post)[0] == pre[0];
      assert (pre + [StopMarker] + post)[1..] == pre[1..] + [StopMarker] + post;
      ScanStop(pre[1..], post);
    }
  }

  /** At most one record per class before the first stop marker. */
  lemma {:induction false} ScanCountBound(cs: seq<LineClass>)
    ensures |Scan(cs)| <= FirstStop(cs)
  {
    if cs != [] && cs[0] != StopMarker {
      ScanCountBound(cs[1..]);
    }
  }

  /** With no stop marker, every data class gives its record, in order. */
  lemma {:induction false} ScanAllData(cs: seq<LineClass>)
    requires forall k :: 0 <= k < |cs| ==> cs[k].Data?
    ensures |Scan(cs)| == |cs|
    ensures forall k :: 0 <= k < |cs| ==> cs[k] == Data(Scan(cs)[k])
  {
    if cs != [] {
      ScanAllData(cs[1..]);
    }
  }

  function Shift(idx: seq<nat>): (r: seq<nat>)
    ensures |r| == |idx| && forall k :: 0 <= k < |idx| ==> r[k] == idx[k] + 1
  {
    seq(|idx|, k requires 0 <= k < |idx| => idx[k] + 1)
  }

  /** The position of the class each record of `Scan(cs)` comes from: one per record. */
  ghost function Sources(cs: seq<LineClass>): (idx: seq<nat>)
    ensures |idx| == |Scan(cs)|
  {
    if cs == [] then []
    else
      var rest := Shift(Sources(cs[1..]));
      match cs[0]
      case StopMarker => []
      case Data(_) => [0] + rest
      case _ => rest
  }

  ghost predicate IsDataAt(cs: seq<LineClass>, n: nat)
  {
    n < |cs| && cs[n].Data?
  }

  lemma {:induction false} SourcesMatch(cs: seq<LineClass>)
    ensures |Sources(cs)| == |Scan(cs)|
    ensures forall k :: 0 <= k < |Sources(cs)| ==>
      Sources(cs)[k] < FirstStop(cs) && cs[Sources(cs)[k]] == Data(Scan(cs)[k])
  {
    if cs != [] && cs[0] != StopMarker {
      SourcesMatch(cs[1..]);
      if cs[0].Data? {
        SourcesMatchData(cs);
      } else {
        SourcesMatchSkip(cs);
      }
    }
  }

  /** The inductive step of `SourcesMatch` for a data class in front. */
  lemma SourcesMatchData(cs: seq<LineClass>)
    requires cs != [] && cs[0].Data?
    requires forall k :: 0 <= k < |Sources(cs[1..])| ==>
      Sources(cs[1..])[k] < FirstStop(cs[1..]) && cs[1..][Sources(cs[1..])[k]] == Data(Scan(cs[1..])[k])
    ensures forall k :: 0 <= k < |Sources(cs)| ==>
      Sources(cs)[k] < FirstStop(cs) && cs[Sources(cs)[k]] == Data(Scan(cs)[k])
  {
    forall k | 0 <= k < |Sources(cs)|
      ensures Sources(cs)[k] < FirstStop(cs) && cs[Sources(cs)[k]] == Data(Scan(cs)[k])
    {
      SourceAtData(cs, k);
    }
  }

  /** Position `k` of `Sources` with a data class in front, from position `k - 1` of the rest. */
  lemma SourceAtData(cs: seq<LineClass>, k: nat)
    requires cs != [] && cs[0].Data? && k < |Sources(cs)|
    requires k > 0 ==>
      Sources(cs[1..])[k - 1] < FirstStop(cs[1..]) && cs[1..][Sources(cs[1..])[k - 1]] == Data(Scan(cs[1..])[k - 1])
    ensures Sources(cs)[k] < FirstStop(cs) && cs[Sources(cs)[k]] == Data(Scan(cs)[k])
  {
    var tail, recs := Sources(cs[1..]), Scan(cs[1..]);
    assert FirstStop(cs) == FirstStop(cs[1..]) + 1;
    assert Scan(cs) == [cs[0].record] + recs;
    assert Sources(cs) == [0] + Shift(tail);
    if k > 0 {
      assert Sources(cs)[k] == tail[k - 1] + 1;
      assert cs[Sources(cs)[k]] == cs[1..][tail[k - 1]];
    }
  }

  /** The inductive step of `SourcesMatch` for a skipped class in front. */
  lemma SourcesMatchSkip(cs: seq<LineClass>)
    requires cs != [] && !cs[0].Data? && cs[0] != StopMarker
    requires forall k :: 0 <= k < |Sources(cs[1..])| ==>
      Sources(cs[1..])[k] < FirstStop(cs[1..]) && cs[1..][Sources(cs[1..])[k]] == Data(Scan(cs[1..])[k])
    ensures forall k :: 0 <= k < |Sources(cs)| ==>
      Sources(cs)[k] < FirstStop(cs) && cs[Sources(cs)[k]] == Data(Scan(cs)[k])
  {
    var tail, idx := Sources(cs[1..]), Sources(cs);
    assert FirstStop(cs) == FirstStop(cs[1..]) + 1;
    assert Scan(cs) == Scan(cs[1..]);
    assert idx == Shift(tail);
    forall k | 0 <= k < |idx|
      ensures idx[k] < FirstStop(cs) && cs[idx[k]] == Data(Scan(cs)[k])
    {
      assert idx[k] == tail[k] + 1;
      assert cs[idx[k]] == cs[1..][tail[k]];
    }
  }


  lemma {:induction false} SourcesIncreasing(cs: seq<LineClass>)
    ensures forall j, k :: 0 <= j < k < |Sources(cs)| ==> Sources(cs)[j] < Sources(cs)[k]
  {
    if cs != [] {
      SourcesIncreasing(cs[1..]);
    }
  }

  lemma {:induction false} SourcesComplete(cs: seq<LineClass>)
    ensures forall n :: 0 <= n < FirstStop(cs) && IsDataAt(cs, n) ==> n in Sources(cs)
  {
    if cs != [] && cs[0] != StopMarker {
      var tail := Sources(cs[1..]);
      SourcesComplete(cs[1..]);
      var rest := Shift(tail);
      forall n | 1 <= n < FirstStop(cs) && IsDataAt(cs, n)
        ensures n in rest
      {
        assert IsDataAt(cs[1..], n - 1);
        var k :| 0 <= k < |tail| && tail[k] == n - 1;
        assert rest[k] == n;
      }
      if cs[0].Data? {
        var idx := [0] + rest;
        assert Sources(cs) == idx;
        forall n | 0 <= n < FirstStop(cs) && IsDataAt(cs, n)
          ensures n in idx
        {
          if n > 0 {
            var k :| 0 <= k < |rest| && rest[k] == n;
            assert idx[k + 1] == n;
          }
        }
      } else {
        assert Sources(cs) == rest;
      }
    }
  }

  /**
   * Record k of `Scan(cs)` is the record of class `Sources(cs)[k]`. These
   * positions come before the first stop marker, strictly increase, and
   * include every data class before the first stop marker.
   */
  lemma SourcesSpec(cs: seq<LineClass>)
    ensures var idx := Sources(cs);
      && |idx| == |Scan(cs)|
      && (forall k :: 0 <= k < |idx| ==> idx[k] < FirstStop(cs) && cs[idx[k]] == Data(Scan(cs)[k]))
      && (forall j, k :: 0 <= j < k < |idx| ==> idx[j] < idx[k])
      && (forall n :: 0 <= n < FirstStop(cs) && IsDataAt(cs, n) ==> n in idx)
  {
    SourcesMatch(cs);
    SourcesIncreasing(cs);
    SourcesComplete(cs);
  }

  // The same properties, stated on the raw lines of the log.

  lemma ClassesAppend(a: seq<string>, b: seq<string>, parse: NumberParser)
    ensures Classes(a + b, parse) == Classes(a, parse) + Classes(b, parse)
  {
  }

  lemma Classes1(line: string, parse: NumberParser)
    ensures Classes([line], parse) == [ClassifyLine(line, parse)]
  {
  }

  /** The classes of `pre + [line] + post`, split at `line`. */
  lemma ClassesAround(pre: seq<string>, line: string, post: seq<string>, parse: NumberParser)
    ensures Classes(pre + [line] + post, parse)
         == Classes(pre, parse) + [ClassifyLine(line, parse)] + Classes(post, parse)
  {
    ClassesAppend(pre + [line], post, parse);
    ClassesAppend(pre, [line], parse);
    Classes1(line, parse);
  }

  /** The first stop marker is at the first stop line. */
  lemma {:induction false} FirstStopIsStopIndex(lines: seq<string>, parse: NumberParser)
    ensures FirstStop(Classes(lines, parse)) == StopIndex(lines)
  {
    if lines != [] {
      var cs := Classes(lines, parse);
      assert cs[0] == ClassifyLine(lines[0], parse);
      ClassifyLineCases(lines[0], parse);
      if !IsStopLine(lines[0]) {
        assert cs[1..] == Classes(lines[1..], parse);
        FirstStopIsStopIndex(lines[1..], parse);
      }
    }
  }

  /**
   * A header, a line with too few fields or a line with a bad number adds no
   * record and does not stop the read: the log parses as if it were absent.
   */
  lemma SkippedLineContributesNothing(pre: seq<string>, line: string, post: seq<string>, parse: NumberParser)
    requires ClassifyLine(line, parse) in {Header, TooFewFields, BadNumber}
    ensures ParseLog(pre + [line] + post, parse) == ParseLog(pre + post, parse)
  {
    ClassesAround(pre, line, post, parse);
    ClassesAppend(pre, post, parse);
    ScanSkip(Classes(pre, parse), ClassifyLine(line, parse), Classes(post, parse));
  }

  /** A header line never ends the read and adds no record. */
  lemma HeaderLineSkipped(pre: seq<string>, line: string, post: seq<string>, parse: NumberParser)
    requires IsHeaderLine(line)
    ensures ParseLog(pre + [line] + post, parse) == ParseLog(pre + post, parse)
  {
    ClassifyLineCases(line, parse);
    SkippedLineContributesNothing(pre, line, post, parse);
  }

  /** Nothing after a stop line reaches the result, whether or not it is valid. */
  lemma StopLineEndsParsing(pre: seq<string>, stop: string, post: seq<string>, parse: NumberParser)
    requires IsStopLine(stop)
    ensures ParseLog(pre + [stop] + post, parse) == ParseLog(pre, parse)
  {
    var c := ClassifyLine(stop, parse);
    assert c == StopMarker by { ClassifyLineCases(stop, parse); }
    ClassesAround(pre, stop, post, parse);
    ScanStop(Classes(pre, parse), Classes(post, parse));
  }

  /** A line with fewer than four comma-separated fields adds no record. */
  lemma ShortLineSkipped(pre: seq<string>, line: string, post: seq<string>, parse: NumberParser)
    requires !IsHeaderLine(line) && !IsStopLine(line) && |SplitComma(line)| < FieldCount
    ensures ParseLog(pre + [line] + post, parse) == ParseLog(pre + post, parse)
  {
    ClassifyLineCases(line, parse);
    SkippedLineContributesNothing(pre, line, post, parse);
  }

  /** A line one of whose first four fields does not parse adds no record. */
  lemma BadNumberLineSkipped(pre: seq<string>, line: string, post: seq<string>, parse: NumberParser, k: nat)
    requires !IsHeaderLine(line) && !IsStopLine(line) && |SplitComma(line)| >= FieldCount
    requires k < FieldCount && ParseField(SplitComma(line)[k], parse).None?
    ensures ParseLog(pre + [line] + post, parse) == ParseLog(pre + post, parse)
  {
    ClassifyLineCases(line, parse);
    SkippedLineContributesNothing(pre, line, post, parse);
  }

  /** Two lines with the same prefixes and the same first four fields are read alike. */
  lemma SameLeadingFields(line: string, other: string, parse: NumberParser)
    requires IsHeaderLine(line) == IsHeaderLine(other) && IsStopLine(line) == IsStopLine(other)
    requires |SplitComma(line)| >= FieldCount && |SplitComma(other)| >= FieldCount
    requires SplitComma(line)[..FieldCount] == SplitComma(other)[..FieldCount]
    ensures ClassifyLine(line, parse) == ClassifyLine(other, parse)
  {
    var fs, gs := SplitComma(line), SplitComma(other);
    assert fs[0] == gs[0] && fs[1] == gs[1] && fs[2] == gs[2] && fs[3] == gs[3];
    assert ParseFields(fs, parse) == ParseFields(gs, parse);
  }

  lemma PrefixesHaveNoComma()
    ensures NoComma(HeaderPrefix) && NoComma(StopPrefix)
  {
    assert HeaderPrefix == ['T', 'i', 'm', 'e'];
    assert StopPrefix == ['S', 't', 'o', 'p', ' ', 'L', 'o', 'g'];
  }

  /** Fields after the fourth do not affect how a line is read. */
  lemma ExtraFieldsIgnored(line: string, extra: string, parse: NumberParser)
    requires |SplitComma(line)| >= FieldCount
    ensures ClassifyLine(line + [','] + extra, parse) == ClassifyLine(line, parse)
  {
    PrefixTestsBeforeComma(line, extra);
    LeadingFieldsKept(line, extra);
    SameLeadingFields(line, line + [','] + extra, parse);
  }

  /** A line of more than one field holds a comma. */
  lemma SomeComma(line: string) returns (k: nat)
    requires |SplitComma(line)| > 1
    ensures k < |line| && line[k] == ','
  {
    SplitCommaSpec(line);
    assert ',' in multiset(line);
    k :| k < |line| && line[k] == ',';
  }

  /** Text after a comma does not change whether a line is a header or a stop line. */
  lemma PrefixTestsBeforeComma(line: string, extra: string)
    ensures IsHeaderLine(line + [','] + extra) == IsHeaderLine(line)
    ensures IsStopLine(line + [','] + extra) == IsStopLine(line)
  {
    PrefixesHaveNoComma();
    PrefixBeforeComma(HeaderPrefix, line, extra);
    PrefixBeforeComma(StopPrefix, line, extra);
  }

  /** Appending fields keeps the leading four. */
  lemma LeadingFieldsKept(line: string, extra: string)
    requires |SplitComma(line)| >= FieldCount
    ensures |SplitComma(line + [','] + extra)| >= FieldCount
    ensures SplitComma(line + [','] + extra)[..FieldCount] == SplitComma(line)[..FieldCount]
  {
    SplitAppend(line, extra);
  }

  /** Records come in file order, each from one data line before the first stop line. */
  lemma RecordsFromLines(lines: seq<string>, parse: NumberParser)
    ensures var idx, recs := Sources(Classes(lines, parse)), ParseLog(lines, parse);
      && |idx| == |recs| <= StopIndex(lines)
      && (forall k :: 0 <= k < |idx| ==>
            idx[k] < StopIndex(lines) && ClassifyLine(lines[idx[k]], parse) == Data(recs[k]))
      && (forall j, k :: 0 <= j < k < |idx| ==> idx[j] < idx[k])
      && (forall n :: 0 <= n < StopIndex(lines) && ClassifyLine(lines[n], parse).Data? ==> n in idx)
  {
    var cs := Classes(lines, parse);
    SourcesSpec(cs);
    ScanCountBound(cs);
    FirstStopIsStopIndex(lines, parse);
    assert forall n :: 0 <= n < |lines| ==> cs[n] == ClassifyLine(lines[n], parse);
    assert forall n :: 0 <= n < |lines| && ClassifyLine(lines[n], parse).Data? ==> IsDataAt(cs, n);
  }

  /** When every line is a data line, there is one record per line, in order. */
  lemma DataLinesAllKept(lines: seq<string>, parse: NumberParser)
    requires forall k :: 0 <= k < |lines| ==> ClassifyLine(lines[k], parse).Data?
    ensures |ParseLog(lines, parse)| == |lines|
    ensures forall k :: 0 <= k < |lines| ==> ClassifyLine(lines[k], parse) == Data(ParseLog(lines, parse)[k])
  {
    ScanAllData(Classes(lines, parse));
  }

  // The four parallel columns of a list of records.

  function Times(recs: seq<LogRecord>): seq<real>
  {
    seq(|recs|, k requires 0 <= k < |recs| => recs[k].time)
  }

  function Rates(recs: seq<LogRecord>): seq<real>
  {
    seq(|recs|, k requires 0 <= k < |recs| => recs[k].rate)
  }

  function Thicknesses(recs: seq<LogRecord>): seq<real>
  {
    seq(|recs|, k requires 0 <= k < |recs| => recs[k].thickness)
  }

  function Frequencies(recs: seq<LogRecord>): seq<real>
  {
    seq(|recs|, k requires 0 <= k < |recs| => recs[k].frequency)
  }
}
