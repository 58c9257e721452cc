/**
 * The shutter-open aggregate of `read_log_file`: which records count as taken
 * with the shutter open, their mean rate in nm/s, and the time span they cover.
 */
module DepositionAnalyzer {
  import opened Sequences
  import opened LogParser

  /** Rate (Å/s) above which the shutter is taken to be open. */
  const ShutterOpenThreshold: real := 0.1
  /** Factor from Å/s to nm/s. */
  const AngstromToNm: real := 0.1

  predicate IsShutterOpen(rec: LogRecord)
  {
    rec.rate > ShutterOpenThreshold
  }

  /**
   * The records taken with the shutter open, in file order: exactly those
   * whose rate exceeds the threshold.
   */
  function ShutterOpen(recs: seq<LogRecord>): (open: seq<LogRecord>)
    ensures |open| <= |recs|
  {
    if recs == [] then []
    else
      var last := recs[|recs| - 1];
      assert recs == recs[..|recs| - 1] + [last];
      ShutterOpen(recs[..|recs| - 1]) + (if IsShutterOpen(last) then [last] else [])
  }

  function Sum(xs: seq<real>): real
  {
    if xs == [] then 0.0 else Sum(xs[..|xs| - 1]) + xs[|xs| - 1]
  }

  /** `np.mean(xs)`, in exact arithmetic. */
  function Mean(xs: seq<real>): real
    requires xs != []
  {
    Sum(xs) / (|xs| as real)
  }

  /** `max(xs)`: an element of `xs` that no element exceeds. */
  function Max(xs: seq<real>): (m: real)
    requires xs != []
    ensures m in xs && forall k :: 0 <= k < |xs| ==> xs[k] <= m
  {
    if |xs| == 1 then xs[0]
    else
      var m := Max(xs[..|xs| - 1]);
      assert xs == xs[..|xs| - 1] + [xs[|xs| - 1]];
      if xs[|xs| - 1] > m then xs[|xs| - 1] else m
  }

  /** `min(xs)`: an element of `xs` that exceeds no element. */
  function Min(xs: seq<real>): (m: real)
    requires xs != []
    ensures m in xs && forall k :: 0 <= k < |xs| ==> m <= xs[k]
  {
    if |xs| == 1 then xs[0]
    else
      var m := Min(xs[..|xs| - 1]);
      assert xs == xs[..|xs| - 1] + [xs[|xs| - 1]];
      if xs[|xs| - 1] < m then xs[|xs| - 1] else m
  }

  /** The mean of the shutter-open rates in nm/s, or 0 when there are none. */
  function AvgRateNm(rates: seq<real>): real
  {
    if rates == [] then 0.0 else Mean(rates) * AngstromToNm
  }

  /**
   * The span from the earliest to the latest shutter-open time, or 0 when
   * there are none: never negative, and 0 for a single sample.
   */
  function OpenDuration(times: seq<real>): (d: real)
    ensures d >= 0.0
    ensures |times| == 1 ==> d == 0.0
  {
    if times == [] then 0.0 else Max(times) - Min(times)
  }

  /** The two numbers shown in the plot titles. */
  datatype DepositionSummary = DepositionSummary(avgRateNm: real, openDuration: real)

  /** The summary of a parsed log, computed from its shutter-open records alone. */
  function Analyze(recs: seq<LogRecord>): DepositionSummary
  {
    var open := ShutterOpen(recs);
    DepositionSummary(AvgRateNm(Rates(open)), OpenDuration(Times(open)))
  }

  // Appending one record, as the reading loop does.

  lemma ShutterOpenSnoc(recs: seq<LogRecord>, rec: LogRecord)
    ensures ShutterOpen(recs + [rec]) == ShutterOpen(recs) + (if IsShutterOpen(rec) then [rec] else [])
  {
  }

  lemma ColumnsSnoc(recs: seq<LogRecord>, rec: LogRecord)
    ensures Times(recs + [rec]) == Times(recs) + [rec.time]
    ensures Rates(recs + [rec]) == Rates(recs) + [rec.rate]
    ensures Thicknesses(recs + [rec]) == Thicknesses(recs) + [rec.thickness]
    ensures Frequencies(recs + [rec]) == Frequencies(recs) + [rec.frequency]
  {
  }

  /** The filter keeps file order: filtering two stretches of the log one after the other. */
  lemma {:induction false} ShutterOpenAppend(a: seq<LogRecord>, b: seq<LogRecord>)
    ensures ShutterOpen(a + b) == ShutterOpen(a) + ShutterOpen(b)
  {
    if b == [] {
      assert a + b == a;
    } else {
      var init, last := b[..|b| - 1], b[|b| - 1];
      assert b == init + [last];
      assert a + b == (a + init) + [last];
      ShutterOpenAppend(a, init);
      ShutterOpenSnoc(a + init, last);
      ShutterOpenSnoc(init, last);
    }
  }

  /** A record is kept exactly when it is in the log and has the shutter open. */
  lemma {:induction false} ShutterOpenMembers(recs: seq<LogRecord>)
    ensures forall rec :: rec in ShutterOpen(recs) <==> rec in recs && IsShutterOpen(rec)
  {
    if recs != [] {
      var init, last := recs[..|recs| - 1], recs[|recs| - 1];
      ShutterOpenMembers(init);
      ShutterOpenSnoc(init, last);
      assert recs == init + [last];
    }
  }

  /** Every kept record has the shutter open. */
  lemma {:induction false} ShutterOpenAllOpen(recs: seq<LogRecord>)
    ensures forall j :: 0 <= j < |ShutterOpen(recs)| ==> IsShutterOpen(ShutterOpen(recs)[j])
  {
    if recs != [] {
      var init, last := recs[..|recs| - 1], recs[|recs| - 1];
      ShutterOpenAllOpen(init);
      ShutterOpenSnoc(init, last);
      assert recs == init + [last];
    }
  }

  /** A shutter-open record anywhere in the log is kept, so the filter is not empty. */
  lemma {:induction false} ShutterOpenNonEmpty(recs: seq<LogRecord>, k: nat)
    requires k < |recs| && IsShutterOpen(recs[k])
    ensures ShutterOpen(recs) != []
  {
    var init, last := recs[..|recs| - 1], recs[|recs| - 1];
    assert recs == init + [last];
    ShutterOpenSnoc(init, last);
    if k < |init| {
      ShutterOpenNonEmpty(init, k);
    }
  }

  /** The shutter-open lists grow by the new sample exactly when its rate is above the threshold. */
  lemma OpenColumnsSnoc(recs: seq<LogRecord>, rec: LogRecord)
    ensures Times(ShutterOpen(recs + [rec])) ==
      Times(ShutterOpen(recs)) + (if IsShutterOpen(rec) then [rec.time] else [])
    ensures Rates(ShutterOpen(recs + [rec])) ==
      Rates(ShutterOpen(recs)) + (if IsShutterOpen(rec) then [rec.rate] else [])
  {
    ShutterOpenSnoc(recs, rec);
    if IsShutterOpen(rec) {
      ColumnsSnoc(ShutterOpen(recs), rec);
    } else {
      assert ShutterOpen(recs) + [] == ShutterOpen(recs);
    }
  }

  // Edge cases.

  lemma {:induction false} NoOpenSampleFiltersAll(recs: seq<LogRecord>)
    requires forall k :: 0 <= k < |recs| ==> !IsShutterOpen(recs[k])
    ensures ShutterOpen(recs) == []
  {
    if recs != [] {
      var init, last := recs[..|recs| - 1], recs[|recs| - 1];
      NoOpenSampleFiltersAll(init);
      ShutterOpenSnoc(init, last);
      assert recs == init + [last];
    }
  }

  /** The comparison is strict: a rate of exactly 0.1 Å/s counts as closed. */
  lemma ThresholdRateIsClosed(rec: LogRecord)
    requires rec.rate == ShutterOpenThreshold
    ensures ShutterOpen([rec]) == []
  {
  }

  /** With no shutter-open record, both numbers are 0. */
  lemma NoOpenSampleGivesZero(recs: seq<LogRecord>)
    requires forall k :: 0 <= k < |recs| ==> !IsShutterOpen(recs[k])
    ensures Analyze(recs) == DepositionSummary(0.0, 0.0)
  {
    NoOpenSampleFiltersAll(recs);
  }

  /**
   * A record at or below the threshold affects neither summary number,
   * wherever it stands among the records.
   */
  lemma ClosedRecordIgnored(pre: seq<LogRecord>, rec: LogRecord, post: seq<LogRecord>)
    requires !IsShutterOpen(rec)
    ensures Analyze(pre + [rec] + post) == Analyze(pre + post)
  {
    ShutterOpenAppend(pre + [rec], post);
    ShutterOpenAppend(pre, post);
    ShutterOpenSnoc(pre, rec);
    assert ShutterOpen(pre + [rec] + post) == ShutterOpen(pre + post);
  }

  /** A single shutter-open record gives its own rate in nm/s and a zero duration. */
  lemma SingleOpenSample(recs: seq<LogRecord>, rec: LogRecord)
    requires ShutterOpen(recs) == [rec]
    ensures Analyze(recs) == DepositionSummary(rec.rate * AngstromToNm, 0.0)
  {
    assert Rates([rec]) == [rec.rate];
    assert Sum([rec.rate]) == rec.rate;
  }

  // Bounds on the mean.

  lemma {:induction false} SumBounds(xs: seq<real>, lo: real, hi: real)
    requires forall k :: 0 <= k < |xs| ==> lo <= xs[k] <= hi
    ensures lo * (|xs| as real) <= Sum(xs) <= hi * (|xs| as real)
  {
    if xs != [] {
      SumBounds(xs[..|xs| - 1], lo, hi);
    }
  }

  lemma {:induction false} SumAbove(xs: seq<real>, lo: real)
    requires xs != []
    requires forall k :: 0 <= k < |xs| ==> lo < xs[k]
    ensures lo * (|xs| as real) < Sum(xs)
  {
    if |xs| > 1 {
      SumAbove(xs[..|xs| - 1], lo);
    }
  }

  lemma QuotientBounds(s: real, n: real, lo: real, hi: real)
    requires n > 0.0 && lo * n <= s <= hi * n
    ensures lo <= s / n <= hi
  {
    assert s / n - lo == (s - lo * n) / n;
    assert hi - s / n == (hi * n - s) / n;
  }

  lemma QuotientAbove(s: real, n: real, lo: real)
    requires n > 0.0 && lo * n < s
    ensures lo < s / n
  {
    assert s / n - lo == (s - lo * n) / n;
  }

  /** The mean lies between the smallest and the largest value. */
  lemma MeanWithinRange(xs: seq<real>)
    requires xs != []
    ensures Min(xs) <= Mean(xs) <= Max(xs)
  {
    var lo, hi, n := Min(xs), Max(xs), |xs| as real;
    SumBounds(xs, lo, hi);
    QuotientBounds(Sum(xs), n, lo, hi);
  }

  /** The mean of values that all exceed `lo` exceeds `lo`. */
  lemma MeanAbove(xs: seq<real>, lo: real)
    requires xs != []
    requires forall k :: 0 <= k < |xs| ==> lo < xs[k]
    ensures lo < Mean(xs)
  {
    var n := |xs| as real;
    SumAbove(xs, lo);
    QuotientAbove(Sum(xs), n, lo);
  }

  /** Every shutter-open rate exceeds the threshold. */
  lemma OpenRatesAboveThreshold(recs: seq<LogRecord>)
    ensures forall j :: 0 <= j < |Rates(ShutterOpen(recs))| ==> ShutterOpenThreshold < Rates(ShutterOpen(recs))[j]
  {
    ShutterOpenAllOpen(recs);
  }

  /** The average of rates that all exceed the threshold exceeds the threshold in nm/s. */
  lemma AvgRateNmAboveThreshold(rates: seq<real>)
    requires rates != []
    requires forall j :: 0 <= j < |rates| ==> ShutterOpenThreshold < rates[j]
    ensures ShutterOpenThreshold * AngstromToNm < AvgRateNm(rates)
  {
    MeanAbove(rates, ShutterOpenThreshold);
  }

  /**
   * When some record has the shutter open, the average rate exceeds the
   * threshold converted to nm/s (0.01 nm/s).
   */
  lemma AvgRateAboveThreshold(recs: seq<LogRecord>, k: nat)
    requires k < |recs| && IsShutterOpen(recs[k])
    ensures ShutterOpen(recs) != []
    ensures ShutterOpenThreshold * AngstromToNm < Analyze(recs).avgRateNm
  {
    ShutterOpenNonEmpty(recs, k);
    OpenRatesAboveThreshold(recs);
    AvgRateNmAboveThreshold(Rates(ShutterOpen(recs)));
  }

  /** The average rate lies between the smallest and largest shutter-open rate, in nm/s. */
  lemma AvgRateWithinRange(recs: seq<LogRecord>)
    requires ShutterOpen(recs) != []
    ensures Min(Rates(ShutterOpen(recs))) * AngstromToNm <= Analyze(recs).avgRateNm
    ensures Analyze(recs).avgRateNm <= Max(Rates(ShutterOpen(recs))) * AngstromToNm
  {
    var rates := Rates(ShutterOpen(recs));
    MeanWithinRange(rates);
    var lo, m, hi := Min(rates), Mean(rates), Max(rates);
    assert lo * AngstromToNm <= m * AngstromToNm <= hi * AngstromToNm;
  }

  // Worked examples.

  /**
   * Times 10, 20, 15 with rates 0.2, 0.3, 0.05: the first two records have the
   * shutter open, so the duration is 20 - 10 and the mean rate is 0.25 Å/s.
   */
  lemma ThreeSampleExample()
    ensures Analyze([LogRecord(10.0, 0.2, 0.0, 0.0), LogRecord(20.0, 0.3, 0.0, 0.0),
                     LogRecord(15.0, 0.05, 0.0, 0.0)])
         == DepositionSummary(0.025, 10.0)
  {
    var r0, r1, r2 := LogRecord(10.0, 0.2, 0.0, 0.0), LogRecord(20.0, 0.3, 0.0, 0.0),
                      LogRecord(15.0, 0.05, 0.0, 0.0);
    ShutterOpenSnoc([], r0);
    ShutterOpenSnoc([r0], r1);
    ShutterOpenSnoc([r0, r1], r2);
    assert [r0] + [r1] == [r0, r1] && [r0, r1] + [r2] == [r0, r1, r2];
    assert ShutterOpen([r0, r1, r2]) == [r0, r1];
    assert Times([r0, r1]) == [10.0, 20.0];
    assert Rates([r0, r1]) == [0.2, 0.3];
    assert Sum([0.2, 0.3]) == 0.5 by {
      assert [0.2, 0.3][..1] == [0.2];
    }
  }

  /** Three shutter-open samples whose times are not in increasing order. */
  const UnsortedLog: seq<LogRecord> :=
    [LogRecord(30.0, 1.0, 0.0, 0.0), LogRecord(10.0, 1.0, 0.0, 0.0), LogRecord(20.0, 1.0, 0.0, 0.0)]

  /**
   * With unsorted times the duration is still the largest minus the smallest
   * time, not the last minus the first: times 30, 10, 20 give 20, where the
   * last minus the first would be -10.
   */
  lemma UnsortedTimesExample()
    ensures Times(ShutterOpen(UnsortedLog)) == [30.0, 10.0, 20.0]
    ensures Analyze(UnsortedLog).openDuration == 20.0
    ensures Analyze(UnsortedLog).openDuration
         != Times(ShutterOpen(UnsortedLog))[2] - Times(ShutterOpen(UnsortedLog))[0]
  {
    var r0, r1, r2 := UnsortedLog[0], UnsortedLog[1], UnsortedLog[2];
    assert UnsortedLog == [r0, r1, r2];
    ShutterOpenSnoc([], r0);
    ShutterOpenSnoc([r0], r1);
    ShutterOpenSnoc([r0, r1], r2);
    assert [r0] + [r1] == [r0, r1] && [r0, r1] + [r2] == [r0, r1, r2];
    assert ShutterOpen([r0, r1, r2]) == [r0, r1, r2];
    var times := Times([r0, r1, r2]);
    assert times == [30.0, 10.0, 20.0];
    assert Max(times) == 30.0 by {
      assert Max(times) in times && times[0] <= Max(times);
    }
    assert Min(times) == 10.0 by {
      assert Min(times) in times && Min(times) <= times[1];
    }
  }

  /**
   * The duration is one span from the first to the last shutter-open time,
   * not a sum of open intervals: open at 0 and at 20 with the shutter closed
   * at 10 still gives 20.
   */
  lemma SpanIncludesClosedTimeExample()
    ensures Analyze([LogRecord(0.0, 1.0, 0.0, 0.0), LogRecord(10.0, 0.0, 0.0, 0.0),
                     LogRecord(20.0, 1.0, 0.0, 0.0)]).openDuration == 20.0
  {
    var r0, r1, r2 := LogRecord(0.0, 1.0, 0.0, 0.0), LogRecord(10.0, 0.0, 0.0, 0.0),
                      LogRecord(20.0, 1.0, 0.0, 0.0);
    ShutterOpenSnoc([], r0);
    ShutterOpenSnoc([r0], r1);
    ShutterOpenSnoc([r0, r1], r2);
    assert [r0] + [r1] == [r0, r1] && [r0, r1] + [r2] == [r0, r1, r2];
    assert ShutterOpen([r0, r1, r2]) == [r0, r2];
    var times := Times([r0, r2]);
    assert times == [0.0, 20.0];
    assert Max(times) == 20.0 by {
      assert Max(times) in times && times[1] <= Max(times);
    }
    assert Min(times) == 0.0 by {
      assert Min(times) in times && Min(times) <= times[0];
    }
  }

  // Order independence.

  lemma {:induction false} ShutterOpenCount(recs: seq<LogRecord>, rec: LogRecord)
    ensures multiset(ShutterOpen(recs))[rec] == if IsShutterOpen(rec) then multiset(recs)[rec] else 0
  {
    if recs != [] {
      var init, last := recs[..|recs| - 1], recs[|recs| - 1];
      assert recs == init + [last];
      ShutterOpenCount(init, rec);
    }
  }

  lemma ShutterOpenPermutation(a: seq<LogRecord>, b: seq<LogRecord>)
    requires multiset(a) == multiset(b)
    ensures multiset(ShutterOpen(a)) == multiset(ShutterOpen(b))
  {
    forall rec ensures multiset(ShutterOpen(a))[rec] == multiset(ShutterOpen(b))[rec] {
      ShutterOpenCount(a, rec);
      ShutterOpenCount(b, rec);
    }
  }

  lemma WithoutTimes(q: seq<LogRecord>, k: nat)
    requires k < |q|
    ensures multiset(Times(q)) == multiset(Times(Without(q, k))) + multiset{q[k].time}
  {
    assert Times(q) == Times(q[..k]) + [q[k].time] + Times(q[k + 1..]);
    assert Times(Without(q, k)) == Times(q[..k]) + Times(q[k + 1..]);
  }

  lemma WithoutRates(q: seq<LogRecord>, k: nat)
    requires k < |q|
    ensures multiset(Rates(q)) == multiset(Rates(Without(q, k))) + multiset{q[k].rate}
  {
    assert Rates(q) == Rates(q[..k]) + [q[k].rate] + Rates(q[k + 1..]);
    assert Rates(Without(q, k)) == Rates(q[..k]) + Rates(q[k + 1..]);
  }

  /** Reordering records reorders their time column the same way. */
  lemma {:induction false} TimesPermutation(p: seq<LogRecord>, q: seq<LogRecord>)
    requires multiset(p) == multiset(q)
    ensures multiset(Times(p)) == multiset(Times(q))
    decreases |p|
  {
    if p == [] {
      assert |q| == |multiset(q)| == 0;
    } else {
      var k := MatchFirst(p, q);
      TimesPermutation(p[1..], Without(q, k));
      WithoutTimes(q, k);
      assert Times(p) == [p[0].time] + Times(p[1..]);
    }
  }

  /** Reordering records reorders their rate column the same way. */
  lemma {:induction false} RatesPermutation(p: seq<LogRecord>, q: seq<LogRecord>)
    requires multiset(p) == multiset(q)
    ensures multiset(Rates(p)) == multiset(Rates(q))
    decreases |p|
  {
    if p == [] {
      assert |q| == |multiset(q)| == 0;
    } else {
      var k := MatchFirst(p, q);
      RatesPermutation(p[1..], Without(q, k));
      WithoutRates(q, k);
      assert Rates(p) == [p[0].rate] + Rates(p[1..]);
    }
  }

  lemma {:induction false} SumAppend(a: seq<real>, b: seq<real>)
    ensures Sum(a + b) == Sum(a) + Sum(b)
  {
    if b != [] {
      assert (a + b)[..|a + b| - 1] == a + b[..|b| - 1];
      SumAppend(a, b[..|b| - 1]);
    } else {
      assert a + b == a;
    }
  }

  lemma SumSingle(x: real)
    ensures Sum([x]) == x
  {
    assert [x][..0] == [];
  }

  lemma SumSplit(ys: seq<real>, k: nat)
    requires k < |ys|
    ensures Sum(ys) == Sum(Without(ys, k)) + ys[k]
  {
    var pre, x, post := ys[..k], ys[k], ys[k + 1..];
    SplitAround(ys, k);
    SumAppend(pre + [x], post);
    SumAppend(pre, [x]);
    SumAppend(pre, post);
    SumSingle(x);
  }

  /** The sum does not depend on the order of the values. */
  lemma {:induction false} SumPermutation(xs: seq<real>, ys: seq<real>)
    requires multiset(xs) == multiset(ys)
    ensures Sum(xs) == Sum(ys)
    decreases |xs|
  {
    if xs == [] {
      assert |ys| == |multiset(ys)| == 0;
    } else {
      var k := MatchFirst(xs, ys);
      SumPermutation(xs[1..], Without(ys, k));
      SumSplit(ys, k);
      SumSplit(xs, 0);
      assert Without(xs, 0) == xs[1..];
    }
  }

  /** The maximum and minimum do not depend on the order of the values. */
  lemma MaxMinPermutation(xs: seq<real>, ys: seq<real>)
    requires xs != [] && multiset(xs) == multiset(ys)
    ensures ys != [] && Max(xs) == Max(ys) && Min(xs) == Min(ys)
  {
    assert |xs| == |multiset(xs)| == |ys|;
    assert Max(xs) in multiset(ys) && Max(ys) in multiset(xs);
    assert Min(xs) in multiset(ys) && Min(ys) in multiset(xs);
  }

  /** The average rate does not depend on the order of the rates. */
  lemma AvgRatePermutation(xs: seq<real>, ys: seq<real>)
    requires multiset(xs) == multiset(ys)
    ensures AvgRateNm(xs) == AvgRateNm(ys)
  {
    assert |xs| == |multiset(xs)| == |ys|;
    SumPermutation(xs, ys);
  }

  /** The duration does not depend on the order of the times. */
  lemma OpenDurationPermutation(xs: seq<real>, ys: seq<real>)
    requires multiset(xs) == multiset(ys)
    ensures OpenDuration(xs) == OpenDuration(ys)
  {
    assert |xs| == |multiset(xs)| == |ys|;
    if xs != [] {
      MaxMinPermutation(xs, ys);
    }
  }

  /**
   * The summary depends only on which records there are, not on their order:
   * the mean, the maximum and the minimum ignore order.
   */
  lemma AnalyzeOrderIndependent(a: seq<LogRecord>, b: seq<LogRecord>)
    requires multiset(a) == multiset(b)
    ensures Analyze(a) == Analyze(b)
  {
    var oa, ob := ShutterOpen(a), ShutterOpen(b);
    ShutterOpenPermutation(a, b);
    TimesPermutation(oa, ob);
    RatesPermutation(oa, ob);
    AvgRatePermutation(Rates(oa), Rates(ob));
    OpenDurationPermutation(Times(oa), Times(ob));
  }
}
