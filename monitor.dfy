/**
 * The text-mode monitor (`cmd_monitor`): a header of truncated source
 * names, then one line per tick with each source's rate and a HIGH flag.
 *
 * Reading the counter table is I/O: the model takes the snapshots the
 * loop would read, already parsed, as a sequence. The printing is left
 * out; a tick's status is the value of `any_high`.
 */
module Monitor {
  import opened Wrappers
  import opened Interrupts
  import opened Discovery
  import Tui

  // ------------------------------------------------------------------
  // Column names
  // ------------------------------------------------------------------

  /** The widest name the header shows. */
  const NAME_WIDTH: nat := 18

  /** The header's name column: a name longer than 18 characters becomes its first 15 and `...`. */
  function TruncateName(name: string): (r: string)
    ensures |r| <= NAME_WIDTH
    ensures r == name <==> |name| <= NAME_WIDTH
    ensures |name| > NAME_WIDTH ==> |r| == NAME_WIDTH && r[..15] == name[..15] && r[15..] == "..."
  {
    if |name| > NAME_WIDTH then name[..15] + "..." else name
  }

  /** Truncating twice is truncating once: a shown name is already short enough. */
  lemma TruncateNameIdempotent(name: string)
    ensures TruncateName(TruncateName(name)) == TruncateName(name)
  {
  }

  // ------------------------------------------------------------------
  // One tick
  // ------------------------------------------------------------------

  /** A count read from a map: `get(..).copied().unwrap_or(0)`. */
  function CountOr0(m: map<string, nat>, irq: string): nat {
    Lookup(m, irq).GetOr(0)
  }

  /**
   * The rates of one tick and the previous counts after it, for the sources
   * `sources` taken in order: each source's rate is measured against the
   * previous count as the earlier sources of the same tick left it, and its
   * current count (0 when its IRQ is absent) becomes the new previous count.
   */
  function TickFold(sources: seq<InterruptSourceInfo>, current: map<string, nat>, prev: map<string, nat>, intervalS: real)
    : (r: (seq<real>, map<string, nat>))
    requires intervalS > 0.0
    ensures |r.0| == |sources|
    decreases |sources|
  {
    if sources == [] then ([], prev)
    else
      var (rates, p) := TickFold(sources[..|sources| - 1], current, prev, intervalS);
      var irq := sources[|sources| - 1].irq;
      var curr := CountOr0(current, irq);
      (rates + [Tui.Rate(CountOr0(p, irq), curr, intervalS)], p[irq := curr])
  }

  /** Some rate is strictly above the threshold. */
  predicate AnyAbove(rates: seq<real>, threshold: real) {
    exists i :: 0 <= i < |rates| && rates[i] > threshold
  }

  /** One more rate is above the threshold exactly when it or an earlier one is. */
  lemma AnyAboveSnoc(rates: seq<real>, rate: real, threshold: real)
    ensures AnyAbove(rates + [rate], threshold) <==> AnyAbove(rates, threshold) || rate > threshold
  {
    var r := rates + [rate];
    if AnyAbove(rates, threshold) {
      var i :| 0 <= i < |rates| && rates[i] > threshold;
      assert r[i] == rates[i];
    }
    if AnyAbove(r, threshold) && !(rate > threshold) {
      var i :| 0 <= i < |r| && r[i] > threshold;
      assert i < |rates| && rates[i] == r[i];
    }
    if rate > threshold {
      assert r[|rates|] == rate;
    }
  }

  /** The loop over the sources in one tick of `cmd_monitor`. */
  method MonitorTick(sources: seq<InterruptSourceInfo>, current: map<string, nat>, prev: map<string, nat>,
                     intervalS: real, threshold: real)
    returns (rates: seq<real>, newPrev: map<string, nat>, anyHigh: bool)
    requires intervalS > 0.0
    ensures (rates, newPrev) == TickFold(sources, current, prev, intervalS)
    ensures anyHigh <==> AnyAbove(rates, threshold)
  {
    rates := [];
    newPrev := prev;
    anyHigh := false;
    var i := 0;
    while i < |sources|
      invariant 0 <= i <= |sources|
      invariant (rates, newPrev) == TickFold(sources[..i], current, prev, intervalS)
      invariant anyHigh <==> AnyAbove(rates, threshold)
    {
      assert sources[..i + 1][..i] == sources[..i];
      var irq := sources[i].irq;
      var curr := CountOr0(current, irq);
      var prevCount := CountOr0(newPrev, irq);
      var delta := if curr >= prevCount then curr - prevCount else 0;
      var rate := delta as real / intervalS;
      newPrev := newPrev[irq := curr];
      AnyAboveSnoc(rates, rate, threshold);
      rates := rates + [rate];
      if rate > threshold {
        anyHigh := true;
      }
      i := i + 1;
    }
    assert sources[..i] == sources;
  }

  /** Every rate of a tick is a counter growth per second, so never negative. */
  lemma {:induction false} TickRatesNonNegative(sources: seq<InterruptSourceInfo>, current: map<string, nat>,
                                                 prev: map<string, nat>, intervalS: real)
    requires intervalS > 0.0
    ensures forall i :: 0 <= i < |sources| ==> TickFold(sources, current, prev, intervalS).0[i] >= 0.0
    decreases |sources|
  {
    if sources != [] {
      TickRatesNonNegative(sources[..|sources| - 1], current, prev, intervalS);
    }
  }

  /** Whether some source at a position below `n` has the IRQ `irq`. */
  predicate SeenBefore(sources: seq<InterruptSourceInfo>, n: nat, irq: string) {
    exists k :: 0 <= k < n && k < |sources| && sources[k].irq == irq
  }

  /**
   * After a tick the previous count of every source's IRQ is its current
   * count, 0 when absent from the snapshot; the counts of other IRQs stay.
   */
  lemma {:induction false} TickPrevCounts(sources: seq<InterruptSourceInfo>, current: map<string, nat>,
                                           prev: map<string, nat>, intervalS: real, irq: string)
    requires intervalS > 0.0
    ensures SeenBefore(sources, |sources|, irq) ==>
      irq in TickFold(sources, current, prev, intervalS).1
      && TickFold(sources, current, prev, intervalS).1[irq] == CountOr0(current, irq)
    ensures !SeenBefore(sources, |sources|, irq) ==>
      Lookup(TickFold(sources, current, prev, intervalS).1, irq) == Lookup(prev, irq)
    decreases |sources|
  {
    if sources != [] {
      var pre := sources[..|sources| - 1];
      TickPrevCounts(pre, current, prev, intervalS, irq);
      if SeenBefore(pre, |pre|, irq) {
        var k :| 0 <= k < |pre| && pre[k].irq == irq;
        assert sources[k].irq == irq;
      }
      if SeenBefore(sources, |sources|, irq) && sources[|sources| - 1].irq != irq {
        var k :| 0 <= k < |sources| && sources[k].irq == irq;
        assert pre[k].irq == irq;
      }
    }
  }

  /**
   * The rate of source `i`: the first source with an IRQ is measured against
   * the count before the tick; a later source with the same IRQ sees the
   * count just stored and so rate 0.
   */
  lemma {:induction false} TickRateAt(sources: seq<InterruptSourceInfo>, current: map<string, nat>,
                                       prev: map<string, nat>, intervalS: real, i: nat)
    requires intervalS > 0.0 && i < |sources|
    ensures !SeenBefore(sources, i, sources[i].irq) ==>
      TickFold(sources, current, prev, intervalS).0[i]
        == Tui.Rate(CountOr0(prev, sources[i].irq), CountOr0(current, sources[i].irq), intervalS)
    ensures SeenBefore(sources, i, sources[i].irq) ==> TickFold(sources, current, prev, intervalS).0[i] == 0.0
    decreases |sources|
  {
    var pre := sources[..|sources| - 1];
    if i < |pre| {
      TickRateAt(pre, current, prev, intervalS, i);
      assert pre[i] == sources[i];
      if SeenBefore(sources, i, sources[i].irq) {
        var k :| 0 <= k < i && k < |sources| && sources[k].irq == sources[i].irq;
        assert pre[k] == sources[k];
      }
      if SeenBefore(pre, i, pre[i].irq) {
        var k :| 0 <= k < i && k < |pre| && pre[k].irq == pre[i].irq;
        assert sources[k] == pre[k];
      }
    } else {
      var irq := sources[i].irq;
      TickPrevCounts(pre, current, prev, intervalS, irq);
      if SeenBefore(sources, i, irq) {
        var k :| 0 <= k < i && k < |sources| && sources[k].irq == irq;
        assert pre[k].irq == irq;
      }
      if SeenBefore(pre, |pre|, irq) {
        var k :| 0 <= k < |pre| && pre[k].irq == irq;
        assert sources[k].irq == irq;
      }
    }
  }

  // ------------------------------------------------------------------
  // The loop
  // ------------------------------------------------------------------

  /** The previous counts after the ticks that read `snaps`, starting from the counts of `initial`. */
  function PrevAfter(sources: seq<InterruptSourceInfo>, initial: seq<InterruptSource>,
                     snaps: seq<seq<InterruptSource>>, intervalS: real): map<string, nat>
    requires intervalS > 0.0
    decreases |snaps|
  {
    if snaps == [] then CountMap(initial)
    else
      var prev := PrevAfter(sources, initial, snaps[..|snaps| - 1], intervalS);
      TickFold(sources, CountMap(snaps[|snaps| - 1]), prev, intervalS).1
  }

  /** The status of every tick that read `snaps`: true for HIGH. */
  function Statuses(sources: seq<InterruptSourceInfo>, initial: seq<InterruptSource>,
                    snaps: seq<seq<InterruptSource>>, intervalS: real, threshold: real): (r: seq<bool>)
    requires intervalS > 0.0
    ensures |r| == |snaps|
    decreases |snaps|
  {
    if snaps == [] then []
    else
      var pre := snaps[..|snaps| - 1];
      var prev := PrevAfter(sources, initial, pre, intervalS);
      var rates := TickFold(sources, CountMap(snaps[|snaps| - 1]), prev, intervalS).0;
      Statuses(sources, initial, pre, intervalS, threshold) + [AnyAbove(rates, threshold)]
  }

  /** One more tick. */
  lemma RunStep(sources: seq<InterruptSourceInfo>, initial: seq<InterruptSource>,
                snapshots: seq<seq<InterruptSource>>, n: nat, intervalS: real, threshold: real)
    requires intervalS > 0.0 && n < |snapshots|
    ensures PrevAfter(sources, initial, snapshots[..n + 1], intervalS)
         == TickFold(sources, CountMap(snapshots[n]), PrevAfter(sources, initial, snapshots[..n], intervalS), intervalS).1
    ensures Statuses(sources, initial, snapshots[..n + 1], intervalS, threshold)
         == Statuses(sources, initial, snapshots[..n], intervalS, threshold)
            + [AnyAbove(TickFold(sources, CountMap(snapshots[n]), PrevAfter(sources, initial, snapshots[..n], intervalS), intervalS).0, threshold)]
  {
    assert snapshots[..n + 1][..n] == snapshots[..n];
  }

  /** How many ticks `cmd_monitor` runs on `available` snapshots: `count` of them, or all when `count` is 0. */
  function TickCount(count: nat, available: nat): (n: nat)
    ensures n <= available
    ensures count > 0 && count <= available ==> n == count
    ensures count == 0 ==> n == available
  {
    if count > 0 && count < available then count else available
  }

  /**
   * The loop of `cmd_monitor`, over the snapshots it reads: a tick per
   * snapshot, stopping after tick `count` when `count` is positive. With
   * `count` 0 nothing stops it but the end of the snapshots.
   */
  method RunMonitor(sources: seq<InterruptSourceInfo>, initial: seq<InterruptSource>,
                    snapshots: seq<seq<InterruptSource>>, count: nat, intervalS: real, threshold: real)
    returns (statuses: seq<bool>)
    requires intervalS > 0.0
    ensures |statuses| == TickCount(count, |snapshots|)
    ensures statuses == Statuses(sources, initial, snapshots[..|statuses|], intervalS, threshold)
  {
    var prevCounts := CountMap(initial);
    var sampleNum := 0;
    statuses := [];
    while sampleNum < |snapshots|
      invariant 0 <= sampleNum <= |snapshots| && |statuses| == sampleNum
      invariant count > 0 ==> sampleNum < count
      invariant prevCounts == PrevAfter(sources, initial, snapshots[..sampleNum], intervalS)
      invariant statuses == Statuses(sources, initial, snapshots[..sampleNum], intervalS, threshold)
    {
      RunStep(sources, initial, snapshots, sampleNum, intervalS, threshold);
      sampleNum := sampleNum + 1;
      var currentMap := CountMap(snapshots[sampleNum - 1]);
      var rates, anyHigh;
      rates, prevCounts, anyHigh := MonitorTick(sources, currentMap, prevCounts, intervalS, threshold);
      statuses := statuses + [anyHigh];
      if count > 0 && sampleNum >= count {
        break;
      }
    }
  }
}
