/** The bounded metrics history: internal/server/metrics.go. Rates are exact real numbers. */
module Metrics {
  import opened Wrappers

  const LIMIT := 360
  const MODULUS := 0x1_0000_0000_0000_0000

  type uint64 = n: nat | n < MODULUS

  /** One reading of the counters; `at` is in seconds. */
  datatype Counters = Counters(
    at: real, requests: uint64, failures: uint64, bytes: uint64, totalCPU: real, idleCPU: real)

  datatype Gauges = Gauges(activeTunnels: int, heapBytes: int, goroutines: int)

  datatype Sample = Sample(
    at: real, gauges: Gauges, requestRate: real, failureRate: real, byteRate: real, cpuPercent: real)

  /** Unsigned subtraction as the machine does it. */
  function Minus(a: uint64, b: uint64): uint64 {
    (a - b) % MODULUS
  }

  function Rate(previous: uint64, current: uint64, elapsed: real): real {
    if elapsed > 0.0 then Minus(current, previous) as real / elapsed else 0.0
  }

  function CPUPercent(previous: Counters, current: Counters): real {
    var total := current.totalCPU - previous.totalCPU;
    var busy := total - (current.idleCPU - previous.idleCPU);
    if total > 0.0 && busy > 0.0 then
      if busy / total * 100.0 > 100.0 then 100.0 else busy / total * 100.0
    else 0.0
  }

  function Measured(previous: Option<Counters>, current: Counters, gauges: Gauges): Sample {
    match previous
    case None => Sample(current.at, gauges, 0.0, 0.0, 0.0, 0.0)
    case Some(p) =>
      var elapsed := current.at - p.at;
      Sample(current.at, gauges, Rate(p.requests, current.requests, elapsed),
             Rate(p.failures, current.failures, elapsed),
             Rate(p.bytes, current.bytes, elapsed), CPUPercent(p, current))
  }

  predicate MeasuredAt(readings: seq<(Counters, Gauges)>, log: seq<Sample>, i: nat) {
    i < |readings| && i < |log|
    && log[i] == Measured(if i == 0 then None else Some(readings[i - 1].0), readings[i].0, readings[i].1)
  }

  /** `log` is the unbounded log of these readings; the history is a window on it. */
  ghost predicate Logged(readings: seq<(Counters, Gauges)>, log: seq<Sample>) {
    && |log| == |readings|
    && (forall i :: 0 <= i < |log| ==> log[i].at == readings[i].0.at)
    && (forall i: nat {:trigger MeasuredAt(readings, log, i)} :: i < |log| ==> MeasuredAt(readings, log, i))
  }

  function Newest<T>(s: seq<T>, n: nat): seq<T> {
    if |s| <= n then s else s[|s| - n..]
  }

  class Metrics {
    ghost var readings: seq<(Counters, Gauges)>
    ghost var log: seq<Sample>
    var previous: Option<Counters>
    var buffer: array<Sample>
    var count: nat

    constructor ()
      ensures Valid() && fresh(buffer) && readings == []
    {
      readings, log, previous, count := [], [], None, 0;
      buffer := new Sample[0];
    }

    /** The stored samples are the newest 360 of the log, in order. */
    ghost predicate Valid()
      reads this, buffer
    {
      && count <= buffer.Length
      && Logged(readings, log) && buffer[..count] == Newest(log, LIMIT)
      && previous == if readings == [] then None else Some(readings[|readings| - 1].0)
    }

    /** The critical section of `record`; the counters were read before it. */
    method Record(current: Counters, gauges: Gauges) returns (value: Sample)
      requires Valid()
      modifies this, buffer
      ensures Valid() && (buffer == old(buffer) || fresh(buffer))
      ensures readings == old(readings) + [(current, gauges)]
      ensures log == old(log) + [value]
    {
      value := Measured(previous, current, gauges);
      previous := Some(current);
      LogAppend(readings, log, current, gauges);
      NewestAppend(log, value, LIMIT);
      Append(value);
      Trim();
      readings, log := readings + [(current, gauges)], log + [value];
    }

    method Trim()
      requires count <= buffer.Length
      modifies this`count, buffer
      ensures count <= buffer.Length && buffer[..count] == Newest(old(buffer[..count]), LIMIT)
    {
      if count > LIMIT {
        ShiftDown(count - LIMIT, LIMIT);
        count := LIMIT;
      }
    }

    /** Go's append: a full backing array is replaced by a larger one. */
    method Append(value: Sample)
      requires count <= buffer.Length
      modifies this`buffer, this`count, buffer
      ensures count == old(count) + 1 <= buffer.Length && (buffer == old(buffer) || fresh(buffer))
      ensures buffer[..count] == old(buffer[..count]) + [value]
    {
      if count == buffer.Length {
        var larger := new Sample[2 * count + 1];
        forall i | 0 <= i < count {
          larger[i] := buffer[i];
        }
        buffer := larger;
      }
      buffer[count] := value;
      count := count + 1;
    }

    /** Go's copy between overlapping parts of one array, towards the front. */
    method ShiftDown(from: nat, n: nat)
      requires from + n <= count <= buffer.Length
      modifies buffer
      ensures buffer[..n] == old(buffer[from..from + n])
    {
      for i := 0 to n
        invariant buffer[..i] == old(buffer[from..from + i])
        invariant forall k :: i <= k < buffer.Length ==> buffer[k] == old(buffer[k])
      {
        buffer[i] := buffer[from + i];
      }
    }

    /** The copy handed to the panel. */
    method Snapshots() returns (samples: seq<Sample>)
      requires Valid()
      ensures |samples| == (if |log| < 360 then |log| else 360) && samples == log[|log| - |samples|..]
      ensures Ascending(readings) ==> forall c, from: nat, to: nat ::
              Telescopes(Gain(c), samples, Values(c, readings), from, to)
    {
      samples := buffer[..count];
      NewestIsSuffix(log, LIMIT);
      if Ascending(readings) {
        forall c, from: nat, to: nat
          ensures Telescopes(Gain(c), samples, Values(c, readings), from, to)
        {
          ShownRatesTelescope(readings, log, c, from, to);
        }
      }
    }
  }

  lemma LogAppend(readings: seq<(Counters, Gauges)>, log: seq<Sample>, current: Counters, gauges: Gauges)
    requires Logged(readings, log)
    ensures var value := Measured(if readings == [] then None else Some(readings[|readings| - 1].0), current, gauges);
            Logged(readings + [(current, gauges)], log + [value])
  {
    var value := Measured(if readings == [] then None else Some(readings[|readings| - 1].0), current, gauges);
    forall i: nat | i < |log + [value]|
      ensures MeasuredAt(readings + [(current, gauges)], log + [value], i)
    {
      if i < |log| {
        assert MeasuredAt(readings, log, i);
      }
    }
  }

  lemma NewestAppend<T>(s: seq<T>, x: T, n: nat)
    ensures Newest(s + [x], n) == Newest(Newest(s, n) + [x], n)
  {
  }

  // ---------------------------------------------------------------- what the numbers mean

  datatype Counter = Requests | Failures | Bytes

  function Value(c: Counter, counters: Counters): uint64 {
    match c case Requests => counters.requests case Failures => counters.failures case Bytes => counters.bytes
  }

  function RateOf(c: Counter, sample: Sample): real {
    match c case Requests => sample.requestRate case Failures => sample.failureRate case Bytes => sample.byteRate
  }

  /** Rate times elapsed time, for a sample and the one before it. */
  function Gain(c: Counter): (Sample, Sample) -> real {
    (earlier: Sample, later: Sample) => RateOf(c, later) * (later.at - earlier.at)
  }

  /** What each element but the first adds to the one before it. */
  function Gains<S>(gain: (S, S) -> real, samples: seq<S>): seq<real>
    requires samples != []
  {
    seq(|samples| - 1, i requires 0 <= i < |samples| - 1 => gain(samples[i], samples[i + 1]))
  }

  function Sum(values: seq<real>): real {
    if values == [] then 0.0 else Sum(values[..|values| - 1]) + values[|values| - 1]
  }

  ghost predicate Ascending(readings: seq<(Counters, Gauges)>) {
    forall i, j | 0 <= i < j < |readings| ::
      readings[i].0.at < readings[j].0.at && forall c :: Value(c, readings[i].0) <= Value(c, readings[j].0)
  }

  /** The counter's value at each reading. */
  function Values(c: Counter, readings: seq<(Counters, Gauges)>): seq<real> {
    seq(|readings|, i requires 0 <= i < |readings| => Value(c, readings[i].0) as real)
  }

  /** What each element adds is the difference of the values at it and at the one before. */
  ghost predicate GainsMatch<S>(gain: (S, S) -> real, log: seq<S>, values: seq<real>) {
    && |log| == |values|
    && forall i, j | 0 <= i < j < |log| :: j == i + 1 ==> gain(log[i], log[j]) == values[j] - values[i]
  }

  lemma LogMatches(readings: seq<(Counters, Gauges)>, log: seq<Sample>, c: Counter)
    requires Logged(readings, log) && Ascending(readings)
    ensures GainsMatch(Gain(c), log, Values(c, readings))
  {
    var values := Values(c, readings);
    forall i, j | 0 <= i < j < |log| && j == i + 1
      ensures Gain(c)(log[i], log[j]) == values[j] - values[i]
    {
      assert MeasuredAt(readings, log, j);
      RateGains(c, readings[i].0, readings[j].0, readings[j].1, log[i]);
    }
  }

  lemma {:induction false} SumTelescopes(gains: seq<real>, values: seq<real>)
    requires |values| == |gains| + 1 && forall i :: 0 <= i < |gains| ==> gains[i] == values[i + 1] - values[i]
    ensures Sum(gains) == values[|gains|] - values[0]
  {
    if gains != [] {
      SumTelescopes(gains[..|gains| - 1], values[..|gains|]);
    }
  }

  lemma MatchingTelescopes<S>(gain: (S, S) -> real, log: seq<S>, values: seq<real>, from: nat, to: nat)
    requires GainsMatch(gain, log, values) && from <= to < |log|
    ensures Sum(Gains(gain, log[from..to + 1])) == values[to] - values[from]
  {
    var gains := Gains(gain, log[from..to + 1]);
    forall i | 0 <= i < |gains|
      ensures gains[i] == values[from..to + 1][i + 1] - values[from..to + 1][i]
    {
      assert gains[i] == gain(log[from + i], log[from + i + 1]);
    }
    SumTelescopes(gains, values[from..to + 1]);
  }

  /** `samples` stand for the newest of `values`; the gains in `from .. to` sum to the difference of the values. */
  ghost predicate Telescopes<S>(gain: (S, S) -> real, samples: seq<S>, values: seq<real>, from: nat, to: nat) {
    from <= to < |samples| <= |values| ==>
      var skipped := |values| - |samples|;
      Sum(Gains(gain, samples[from..to + 1])) == values[skipped + to] - values[skipped + from]
  }

  lemma SuffixTelescopes<S>(
    gain: (S, S) -> real, log: seq<S>, shown: seq<S>, values: seq<real>, from: nat, to: nat)
    requires GainsMatch(gain, log, values) && |shown| <= |log| && shown == log[|log| - |shown|..]
    ensures Telescopes(gain, shown, values, from, to)
  {
    if from <= to < |shown| {
      MatchingTelescopes(gain, shown, values[|log| - |shown|..], from, to);
    }
  }

  /** For a clock that moves and counters that do not go back, the rates over any run of consecutive samples of the
      log add up to exactly what the counter gained across it. */
  lemma RatesTelescope(readings: seq<(Counters, Gauges)>, log: seq<Sample>, c: Counter, from: nat, to: nat)
    requires Logged(readings, log) && Ascending(readings) && from <= to < |log|
    ensures Sum(Gains(Gain(c), log[from..to + 1])) == Values(c, readings)[to] - Values(c, readings)[from]
  {
    LogMatches(readings, log, c);
    MatchingTelescopes(Gain(c), log, Values(c, readings), from, to);
  }

  lemma RateGains(c: Counter, p: Counters, n: Counters, gauges: Gauges, earlier: Sample)
    requires earlier.at == p.at < n.at && Value(c, p) <= Value(c, n)
    ensures Gain(c)(earlier, Measured(Some(p), n, gauges)) == Value(c, n) as real - Value(c, p) as real
  {
    var gain := Minus(Value(c, n), Value(c, p));
    assert gain == Value(c, n) - Value(c, p);
    RateIs(c, p, n, gauges);
    GainIs(c, earlier, Measured(Some(p), n, gauges), gain as real, n.at - p.at);
  }

  lemma RateIs(c: Counter, p: Counters, n: Counters, gauges: Gauges)
    requires p.at < n.at
    ensures RateOf(c, Measured(Some(p), n, gauges)) == Minus(Value(c, n), Value(c, p)) as real / (n.at - p.at)
    ensures Measured(Some(p), n, gauges).at == n.at
  {
  }

  lemma GainIs(c: Counter, earlier: Sample, later: Sample, gain: real, elapsed: real)
    requires later.at - earlier.at == elapsed > 0.0 && RateOf(c, later) == gain / elapsed
    ensures Gain(c)(earlier, later) == gain
  {
    Multiply(RateOf(c, later), gain, elapsed);
  }

  lemma Multiply(rate: real, gain: real, elapsed: real)
    requires elapsed > 0.0 && rate == gain / elapsed
    ensures rate * elapsed == gain
  {
  }

  /** What the panel shows adds up, however many samples were dropped before. */
  lemma ShownRatesTelescope(readings: seq<(Counters, Gauges)>, log: seq<Sample>, c: Counter, from: nat, to: nat)
    requires Logged(readings, log) && Ascending(readings)
    ensures Telescopes(Gain(c), Newest(log, LIMIT), Values(c, readings), from, to)
  {
    LogMatches(readings, log, c);
    NewestIsSuffix(log, LIMIT);
    SuffixTelescopes(Gain(c), log, Newest(log, LIMIT), Values(c, readings), from, to);
  }

  lemma NewestIsSuffix<T>(s: seq<T>, n: nat)
    ensures |Newest(s, n)| == (if |s| < n then |s| else n) && Newest(s, n) == s[|s| - |Newest(s, n)|..]
  {
  }

  /** Differences of counters are taken modulo 2^64, as the machine does it. */
  lemma MinusMeaning(a: uint64, b: uint64)
    ensures (b + Minus(a, b)) % 0x1_0000_0000_0000_0000 == a
    ensures a >= b ==> Minus(a, b) == a - b
  {
  }

  /** The CPU share is the busy part of the elapsed CPU time, cut off below 0 and above 100 percent. */
  lemma CPUMeaning(previous: Counters, current: Counters)
    ensures var total := current.totalCPU - previous.totalCPU;
            var busy := total - (current.idleCPU - previous.idleCPU);
            var percent := CPUPercent(previous, current);
            && (total <= 0.0 || busy <= 0.0 ==> percent == 0.0)
            && (0.0 < total <= busy ==> percent == 100.0)
            && (0.0 < busy < total ==> 0.0 < percent < 100.0 && percent * total == 100.0 * busy)
  {
    var total := current.totalCPU - previous.totalCPU;
    var busy := total - (current.idleCPU - previous.idleCPU);
    if total > 0.0 && busy > 0.0 {
      Proportion(busy, total, CPUPercent(previous, current));
    }
  }

  lemma Proportion(busy: real, total: real, percent: real)
    requires busy > 0.0 && total > 0.0
    requires percent == if busy / total * 100.0 > 100.0 then 100.0 else busy / total * 100.0
    ensures if busy < total then 0.0 < percent < 100.0 && percent * total == 100.0 * busy else percent == 100.0
  {
    var share := busy / total;
    Multiply(share, busy, total);
    Compare(share, busy, total);
    assert share * 100.0 * total == 100.0 * (share * total);
  }

  lemma Compare(share: real, busy: real, total: real)
    requires total > 0.0 && busy > 0.0 && share * total == busy
    ensures share > 0.0 && (share < 1.0 <==> busy < total)
  {
    assert 0.0 * total == 0.0 && 1.0 * total == total;
    if share <= 0.0 {
      NotMore(share, 0.0, total);
    } else if share < 1.0 {
      Less(share, 1.0, total);
    } else {
      NotMore(1.0, share, total);
    }
  }

  lemma Less(a: real, b: real, factor: real)
    requires a < b && factor > 0.0
    ensures a * factor < b * factor
  {
    assert (b - a) * factor > 0.0;
  }

  lemma NotMore(a: real, b: real, factor: real)
    requires a <= b && factor > 0.0
    ensures a * factor <= b * factor
  {
    if a < b {
      Less(a, b, factor);
    }
  }

  /** The first sample, and one for which the clock has not moved, show no rates; every sample carries its gauges. */
  lemma SampleMeaning(readings: seq<(Counters, Gauges)>, log: seq<Sample>, i: nat)
    requires Logged(readings, log) && i < |log|
    ensures log[i].at == readings[i].0.at && log[i].gauges == readings[i].1
    ensures i == 0 || readings[i].0.at <= readings[i - 1].0.at ==> forall c :: RateOf(c, log[i]) == 0.0
    ensures log[i].cpuPercent == if i == 0 then 0.0 else CPUPercent(readings[i - 1].0, readings[i].0)
  {
    assert MeasuredAt(readings, log, i);
  }

  /** CPU shares are percentages for any readings, and no rate is negative. */
  lemma NumbersInRange(readings: seq<(Counters, Gauges)>, log: seq<Sample>, i: nat)
    requires Logged(readings, log) && i < |log|
    ensures 0.0 <= log[i].cpuPercent <= 100.0 && forall c :: RateOf(c, log[i]) >= 0.0
  {
    assert MeasuredAt(readings, log, i);
    if i > 0 {
      var p, n := readings[i - 1].0, readings[i].0;
      Share(n.totalCPU - p.totalCPU, n.totalCPU - p.totalCPU - (n.idleCPU - p.idleCPU));
      forall c
        ensures RateOf(c, log[i]) >= 0.0
      {
        if n.at > p.at {
          Share(n.at - p.at, Minus(Value(c, n), Value(c, p)) as real);
        }
      }
    }
  }

  lemma Share(total: real, part: real)
    ensures total > 0.0 && part >= 0.0 ==> part / total >= 0.0
  {
  }
}
