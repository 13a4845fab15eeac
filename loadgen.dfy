/**
 * cmd/load-gen/main.go: how its `Logger` turns listener events into stats on
 * the stats channel, the windowed summaries of `printStats`, and the unit
 * selection of `ByteCountSI`.
 *
 * The channel is a sequence of arrivals, each with the clock readings
 * `printStats` takes after receiving it; printing is a flag, and the float
 * rate and mantissa are left out.
 */
module LoadGen {
  import opened Listener
  import opened Arith

  /** A sample on the stats channel: when the logger sent it and the bytes of the download. */
  datatype Stat = Stat(time: int, bytes: int)

  /** What one logger call did: whether it printed a line, and what it sent on the stats channel. */
  datatype Delivery = Delivery(printed: bool, sent: seq<Stat>)

  /** `Logger.SuccessfullyDownloaded`: prints unless quiet, and always sends one stat stamped `now`. */
  function SuccessfullyDownloaded(quiet: bool, message: Event, now: int): (d: Delivery)
    requires message.Success?
    ensures d.printed <==> !quiet
    ensures d.sent == [Stat(now, message.bytes)]
  {
    Delivery(!quiet, [Stat(now, message.bytes)])
  }

  /** `Logger.ErrorWhileDownloading`: prints the error and sends nothing. */
  function ErrorWhileDownloading(playbackError: Event): (d: Delivery)
    requires playbackError.Failure?
    ensures d.printed && d.sent == []
  {
    Delivery(true, [])
  }

  /** A call into the logger, with the clock reading `time.Now()` gives inside it. */
  datatype Call = Call(event: Event, now: int)

  /** The `Logger` interface: a success goes to `SuccessfullyDownloaded`, a failure to `ErrorWhileDownloading`. */
  function Deliver(quiet: bool, c: Call): Delivery
  {
    if c.event.Success? then SuccessfullyDownloaded(quiet, c.event, c.now) else ErrorWhileDownloading(c.event)
  }

  /** What a sequence of logger calls puts on the stats channel, in order. */
  function StatStream(quiet: bool, calls: seq<Call>): seq<Stat>
  {
    if calls == [] then [] else Deliver(quiet, calls[0]).sent + StatStream(quiet, calls[1..])
  }

  /** The calls that reported a success. */
  function Successes(calls: seq<Call>): (s: seq<Call>)
    ensures forall k :: 0 <= k < |s| ==> s[k].event.Success?
  {
    if calls == [] then []
    else (if calls[0].event.Success? then [calls[0]] else []) + Successes(calls[1..])
  }

  /** `quiet` changes only what is printed: the stats channel gets the same samples either way. */
  lemma {:induction false} StatStreamIgnoresQuiet(calls: seq<Call>)
    ensures StatStream(true, calls) == StatStream(false, calls)
    decreases |calls|
  {
    if calls != [] {
      StatStreamIgnoresQuiet(calls[1..]);
    }
  }

  /** The stats channel carries exactly one sample per success, with its bytes, in order; failures add nothing. */
  lemma {:induction false} StatStreamIsSuccesses(quiet: bool, calls: seq<Call>)
    ensures var stream, s := StatStream(quiet, calls), Successes(calls);
      && |stream| == |s|
      && forall k :: 0 <= k < |s| ==> stream[k] == Stat(s[k].now, s[k].event.bytes)
    decreases |calls|
  {
    if calls != [] {
      StatStreamIsSuccesses(quiet, calls[1..]);
      var head := Deliver(quiet, calls[0]).sent;
      var stream, s := StatStream(quiet, calls), Successes(calls);
      var s0 := if calls[0].event.Success? then [calls[0]] else [];
      assert stream == head + StatStream(quiet, calls[1..]);
      assert s == s0 + Successes(calls[1..]);
      forall k | 0 <= k < |s|
        ensures stream[k] == Stat(s[k].now, s[k].event.bytes)
      {
        if k >= |s0| {
          assert stream[k] == StatStream(quiet, calls[1..])[k - |head|];
          assert s[k] == Successes(calls[1..])[k - |s0|];
        }
      }
    }
  }

  const NanosPerSecond: int := 1_000_000_000

  /** A sample as `printStats` receives it: the stat, `time.Now()` right after receiving it, and `time.Now()` after printing a summary for it. */
  datatype Arrival = Arrival(stat: Stat, now: int, nowAfterPrint: int)

  /** A printed summary: the elapsed time of the window and the bytes counted in it. */
  datatype Summary = Summary(elapsed: int, total: int)

  /** The state `printStats` keeps between samples. */
  datatype OpenWindow = OpenWindow(first: Stat, total: int, deadline: int)

  datatype Folded = Folded(summaries: seq<Summary>, open: OpenWindow)

  /** The loop of `printStats` over the samples after the first, with windows of `intervalNanos`. */
  function Fold(w: OpenWindow, arrivals: seq<Arrival>, intervalNanos: int): Folded
    decreases |arrivals|
  {
    if arrivals == [] then Folded([], w)
    else
      var a := arrivals[0];
      var total := w.total + a.stat.bytes;
      if a.now > w.deadline then
        var rest := Fold(OpenWindow(a.stat, 0, a.nowAfterPrint + intervalNanos), arrivals[1..], intervalNanos);
        Folded([Summary(a.stat.time - w.first.time, total)] + rest.summaries, rest.open)
      else
        Fold(OpenWindow(w.first, total, w.deadline), arrivals[1..], intervalNanos)
  }

  /** The window opened by the first sample: its bytes, and a deadline `printInterval` seconds after it arrived. */
  function Opening(first: Arrival, printInterval: int): OpenWindow
  {
    OpenWindow(first.stat, first.stat.bytes, first.now + printInterval * NanosPerSecond)
  }

  /** `printStats`: fold the samples into summaries, closing a window at the first sample received after its deadline. */
  method PrintStats(stream: seq<Arrival>, printInterval: int) returns (summaries: seq<Summary>)
    ensures stream == [] ==> summaries == []
    ensures stream != [] ==>
      summaries == Fold(Opening(stream[0], printInterval), stream[1..], printInterval * NanosPerSecond).summaries
  {
    summaries := [];
    if stream == [] {
      // blocked on the first receive
      return;
    }
    ghost var whole := Fold(Opening(stream[0], printInterval), stream[1..], printInterval * NanosPerSecond);
    var firstStat := stream[0].stat;
    var total := firstStat.bytes;
    var deadline := stream[0].now + printInterval * NanosPerSecond;
    var lastStat := Stat(0, 0);
    var i := 1;
    while i < |stream|
      invariant 1 <= i <= |stream|
      invariant whole.summaries
                == summaries + Fold(OpenWindow(firstStat, total, deadline), stream[i..], printInterval * NanosPerSecond).summaries
    {
      assert stream[i..][0] == stream[i] && stream[i..][1..] == stream[i + 1..];
      var stat := stream[i].stat;
      total := total + stat.bytes;
      lastStat := stat;
      if stream[i].now > deadline {
        var duration := lastStat.time - firstStat.time;
        summaries := summaries + [Summary(duration, total)];
        firstStat := stat;
        total := 0;
        deadline := stream[i].nowAfterPrint + printInterval * NanosPerSecond;
      }
      i := i + 1;
    }
  }

  function SumBytes(arrivals: seq<Arrival>): int
  {
    if arrivals == [] then 0 else arrivals[0].stat.bytes + SumBytes(arrivals[1..])
  }

  function SumTotals(summaries: seq<Summary>): int
  {
    if summaries == [] then 0 else summaries[0].total + SumTotals(summaries[1..])
  }

  /** No byte is lost or counted twice: the summaries and the open window together hold every sample's bytes. */
  lemma {:induction false} FoldConservesBytes(w: OpenWindow, arrivals: seq<Arrival>, intervalNanos: int)
    ensures var f := Fold(w, arrivals, intervalNanos);
      SumTotals(f.summaries) + f.open.total == w.total + SumBytes(arrivals)
    decreases |arrivals|
  {
    if arrivals != [] {
      var a := arrivals[0];
      if a.now > w.deadline {
        FoldConservesBytes(OpenWindow(a.stat, 0, a.nowAfterPrint + intervalNanos), arrivals[1..], intervalNanos);
      } else {
        FoldConservesBytes(OpenWindow(w.first, w.total + a.stat.bytes, w.deadline), arrivals[1..], intervalNanos);
      }
    }
  }

  /** While no sample arrives after the deadline nothing is printed, however much time the samples' own stamps span. */
  lemma {:induction false} NoSummaryBeforeDeadline(w: OpenWindow, arrivals: seq<Arrival>, intervalNanos: int)
    requires forall k :: 0 <= k < |arrivals| ==> arrivals[k].now <= w.deadline
    ensures Fold(w, arrivals, intervalNanos)
            == Folded([], OpenWindow(w.first, w.total + SumBytes(arrivals), w.deadline))
    decreases |arrivals|
  {
    if arrivals != [] {
      NoSummaryBeforeDeadline(OpenWindow(w.first, w.total + arrivals[0].stat.bytes, w.deadline), arrivals[1..],
                              intervalNanos);
    }
  }

  /**
   * The first sample received after the deadline closes the window: the summary
   * spans from the window's first stat to that sample and counts every byte up to
   * and including it; the next window starts at that sample with nothing counted.
   */
  lemma {:induction false} FirstSummary(w: OpenWindow, arrivals: seq<Arrival>, intervalNanos: int, k: nat)
    requires k < |arrivals| && arrivals[k].now > w.deadline
    requires forall j :: 0 <= j < k ==> arrivals[j].now <= w.deadline
    ensures var f := Fold(w, arrivals, intervalNanos);
      var next := Fold(OpenWindow(arrivals[k].stat, 0, arrivals[k].nowAfterPrint + intervalNanos),
                       arrivals[k + 1..], intervalNanos);
      && f.summaries != []
      && f.summaries[0] == Summary(arrivals[k].stat.time - w.first.time, w.total + SumBytes(arrivals[..k + 1]))
      && f.summaries[1..] == next.summaries
      && f.open == next.open
    decreases k
  {
    var a := arrivals[0];
    if k > 0 {
      var w' := OpenWindow(w.first, w.total + a.stat.bytes, w.deadline);
      FirstSummary(w', arrivals[1..], intervalNanos, k - 1);
      assert arrivals[1..][k - 1] == arrivals[k];
      assert arrivals[1..][k - 1 + 1..] == arrivals[k + 1..];
      assert arrivals[..k + 1][1..] == arrivals[1..][..k - 1 + 1];
    } else {
      assert arrivals[..1][1..] == [];
    }
  }

  /** At most one summary per sample. */
  lemma {:induction false} SummariesAtMostSamples(w: OpenWindow, arrivals: seq<Arrival>, intervalNanos: int)
    ensures |Fold(w, arrivals, intervalNanos).summaries| <= |arrivals|
    decreases |arrivals|
  {
    if arrivals != [] {
      var a := arrivals[0];
      if a.now > w.deadline {
        SummariesAtMostSamples(OpenWindow(a.stat, 0, a.nowAfterPrint + intervalNanos), arrivals[1..], intervalNanos);
      } else {
        SummariesAtMostSamples(OpenWindow(w.first, w.total + a.stat.bytes, w.deadline), arrivals[1..], intervalNanos);
      }
    }
  }

  /**
   * Samples of 100, 200 and 50 bytes at 0 s, 5 s and 11 s, received at those
   * times, with a 10 s interval: one summary of 11 s and 350 bytes (the
   * triggering sample's bytes included), and a fresh window from the 11 s sample.
   */
  lemma ThreeSampleExample()
    ensures var s := 1_000_000_000;
      var stream := [Arrival(Stat(0, 100), 0, 0), Arrival(Stat(5 * s, 200), 5 * s, 5 * s),
                     Arrival(Stat(11 * s, 50), 11 * s, 11 * s)];
      var f := Fold(Opening(stream[0], 10), stream[1..], 10 * NanosPerSecond);
      f.summaries == [Summary(11 * s, 350)] && f.open == OpenWindow(Stat(11 * s, 50), 0, 21 * s)
  {
    var s := 1_000_000_000;
    var a1, a2 := Arrival(Stat(5 * s, 200), 5 * s, 5 * s), Arrival(Stat(11 * s, 50), 11 * s, 11 * s);
    var stream := [Arrival(Stat(0, 100), 0, 0), a1, a2];
    var w0 := Opening(stream[0], 10);
    assert w0 == OpenWindow(Stat(0, 100), 100, 10 * s);
    assert stream[1..] == [a1, a2] && [a1, a2][1..] == [a2] && [a2][1..] == [];
    var reset := OpenWindow(Stat(11 * s, 50), 0, 21 * s);
    assert Fold(reset, [], 10 * s) == Folded([], reset);
    assert Fold(OpenWindow(Stat(0, 100), 300, 10 * s), [a2], 10 * s) == Folded([Summary(11 * s, 350)], reset);
    assert Fold(w0, [a1, a2], 10 * s) == Fold(OpenWindow(Stat(0, 100), 300, 10 * s), [a2], 10 * s);
  }

  /** What `ByteCountSI` formats: the plain count, or the divisor and prefix of the SI unit (the mantissa is a float). */
  datatype ByteCount = Plain(b: int) | Scaled(div: int, exp: nat, prefix: char)

  const Int64Min: int := -0x8000_0000_0000_0000
  const Int64Max: int := 0x7fff_ffff_ffff_ffff

  /** One step of the unit loop: a quotient of at least 1000 leaves room for the next divisor. */
  lemma NextUnit(b: int, div: int)
    requires b >= 0 && div > 0 && b / div >= 1000
    ensures div * 1000 <= b
    ensures b / div / 1000 == b / (div * 1000)
  {
    var n := b / div;
    assert b == div * n + b % div;
    MulMonotone(div, 1000, n);
    DivDiv(b, div, 1000);
  }

  /** An int64 dividend has at most six SI units: 1000 to the seventh power is out of range. */
  lemma {:induction false} UnitExponentBound(exp: nat)
    requires Pow(1000, exp + 1) <= Int64Max
    ensures exp <= 5
  {
    if exp >= 6 {
      PowMonotone(1000, 7, exp + 1);
    }
  }

  /** `ByteCountSI`: below 1000 the plain count; otherwise divide by 1000 until the quotient is below 1000. */
  method ByteCountSI(b: int) returns (r: ByteCount)
    requires Int64Min <= b <= Int64Max
    ensures b < 1000 <==> r.Plain?
    ensures r.Plain? ==> r.b == b
    ensures r.Scaled? ==>
      && r.div == Pow(1000, r.exp + 1)
      && 1000 <= r.div <= b
      && 1 <= b / r.div < 1000
      && r.exp <= 5
      && r.prefix == "kMGTPE"[r.exp]
  {
    if b < 1000 {
      return Plain(b);
    }
    var div, exp := 1000, 0;
    var n := b / 1000;
    while n >= 1000
      invariant div == Pow(1000, exp + 1) && 1000 <= div <= b
      invariant n == b / div && n >= 1
      decreases n
    {
      NextUnit(b, div);
      div := div * 1000;
      exp := exp + 1;
      n := n / 1000;
    }
    UnitExponentBound(exp);
    return Scaled(div, exp, "kMGTPE"[exp]);
  }
}
