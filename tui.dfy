/**
 * The live dashboard: one scrolling rate history per interrupt source, a
 * history of the summed rate, the selection cursor over the table rows and
 * the per-row visibility flags.
 *
 * The clock is a parameter: every operation that needs the elapsed time
 * takes it, in seconds. Rates are `real`s; the floating-point behaviour of
 * the original (rounding, infinities) is not modelled.
 *
 * The state of a `SourceHistory` and of an `App` is also given as a value
 * (`SourceState`, `AppView`), and every state-changing method is specified
 * by a function from the old value to the new: `Pushed`, `Sampled`,
 * `NextRow`, `PrevRow`, `Toggled`, `KeyStep`. The lemmas about the
 * dashboard are stated about those functions.
 */
module Tui {
  import opened Wrappers
  import opened Discovery

  /** Samples kept per series: the width of the scrolling window. */
  const MAX_POINTS: nat := 300

  /** A time in seconds since the dashboard started. */
  type Seconds = r: real | r >= 0.0

  // ------------------------------------------------------------------
  // Colours
  // ------------------------------------------------------------------

  datatype Color = Blue | Magenta | Red | Yellow | Cyan | LightMagenta | LightRed | LightYellow | White

  const CONTROLLER_COLORS: seq<Color> := [Blue, Magenta, Red, Yellow]
  const HID_COLORS: seq<Color> := [Cyan, LightMagenta, LightRed, LightYellow]
  const TOTAL_COLOR: Color := White

  /** `SourceHistory::color`: the palette of the source's role, indexed cyclically. */
  function SourceColor(isController: bool, colorIdx: nat): (c: Color)
    ensures c in (if isController then CONTROLLER_COLORS else HID_COLORS)
    ensures c != TOTAL_COLOR
  {
    if isController then CONTROLLER_COLORS[colorIdx % |CONTROLLER_COLORS|]
    else HID_COLORS[colorIdx % |HID_COLORS|]
  }

  /**
   * Within one role two colour indices share a colour exactly when they
   * agree modulo four, and a controller never shares a colour with a device.
   */
  lemma SourceColorsDistinct(isController: bool, i: nat, j: nat)
    ensures SourceColor(isController, i) == SourceColor(isController, j) <==> i % 4 == j % 4
    ensures SourceColor(true, i) != SourceColor(false, j)
  {
  }

  // ------------------------------------------------------------------
  // One rate series
  // ------------------------------------------------------------------

  /** The rate of one sample: the counter's growth, saturating at 0, per second. */
  function Rate(prevCount: nat, count: nat, intervalS: real): (r: real)
    requires intervalS > 0.0
    ensures r >= 0.0
    ensures r == 0.0 <==> count <= prevCount
  {
    (if count >= prevCount then count - prevCount else 0) as real / intervalS
  }

  /** Over one interval, the rate accounts for exactly the counter's growth. */
  lemma RateTimesInterval(prevCount: nat, count: nat, intervalS: real)
    requires intervalS > 0.0 && count >= prevCount
    ensures Rate(prevCount, count, intervalS) * intervalS == (count - prevCount) as real
  {
  }

  /** A sample: when it was taken and the rate it measured. */
  datatype Point = Point(elapsedS: real, rate: real)

  /** A scrolling window of samples with the running statistics over every sample ever recorded. */
  datatype Series = Series(data: seq<Point>, latest: real, sum: real, min: Option<real>, max: Option<real>)

  /** A series before its first sample; `None` stands for the `f64::MAX` / `f64::MIN` starting values. */
  const EmptySeries: Series := Series([], 0.0, 0.0, None, None)

  /** `VecDeque::pop_front` on a non-empty window: every point but the oldest, in order. */
  function PopFront(data: seq<Point>): (r: seq<Point>)
    requires data != []
    ensures |r| == |data| - 1
    ensures forall k :: 0 <= k < |r| ==> r[k] == data[k + 1]
  {
    seq(|data| - 1, k requires 0 <= k < |data| - 1 => data[k + 1])
  }

  /**
   * The window after appending `p`: when it is full, the oldest sample
   * leaves (`pop_front`, then `push_back`), so the window is the newest
   * `|r|` points of `data + [p]`.
   */
  function Window(data: seq<Point>, p: Point): (r: seq<Point>)
    ensures |r| == if |data| >= MAX_POINTS then |data| else |data| + 1
    ensures r[|r| - 1] == p
  {
    if |data| >= MAX_POINTS then PopFront(data) + [p] else data + [p]
  }

  /** `f64::min` against a running minimum that starts at `f64::MAX`. */
  function MinWith(m: Option<real>, x: real): (r: Option<real>)
    ensures r.Some? && r.value <= x
    ensures m.Some? ==> r.value <= m.value
    ensures r.value == x || r == m
  {
    if m.Some? && m.value < x then m else Some(x)
  }

  /** `f64::max` against a running maximum that starts at `f64::MIN`. */
  function MaxWith(m: Option<real>, x: real): (r: Option<real>)
    ensures r.Some? && r.value >= x
    ensures m.Some? ==> r.value >= m.value
    ensures r.value == x || r == m
  {
    if m.Some? && m.value > x then m else Some(x)
  }

  /** Recording one sample in a series (the common part of `push` and of the TOTAL update in `sample`). */
  function Record(s: Series, p: Point): Series {
    Series(Window(s.data, p), p.rate, s.sum + p.rate, MinWith(s.min, p.rate), MaxWith(s.max, p.rate))
  }

  /** What a well-formed series looks like; every sample recorded keeps it so. */
  predicate WellFormed(s: Series) {
    && |s.data| <= MAX_POINTS
    && (forall i :: 0 <= i < |s.data| ==> s.data[i].rate >= 0.0)
    && s.sum >= 0.0 && s.latest >= 0.0
    && (s.min.Some? <==> s.max.Some?)
    && (s.data == [] <==> s.min.None?)
    && (s.data != [] ==> s.data[|s.data| - 1].rate == s.latest)
    && (s.min.Some? ==> 0.0 <= s.min.value <= s.latest <= s.max.value)
  }

  /** Appending keeps the window's rates non-negative. */
  lemma WindowKeepsRates(data: seq<Point>, p: Point)
    requires p.rate >= 0.0
    requires forall i :: 0 <= i < |data| ==> data[i].rate >= 0.0
    ensures forall i :: 0 <= i < |Window(data, p)| ==> Window(data, p)[i].rate >= 0.0
  {
    var w := Window(data, p);
    forall i | 0 <= i < |w|
      ensures w[i].rate >= 0.0
    {
      WindowAt(data, p, i);
    }
  }

  /** Point `i` of the window is a point of `data`, or `p` itself. */
  lemma WindowAt(data: seq<Point>, p: Point, i: nat)
    requires i < |Window(data, p)|
    ensures Window(data, p)[i] == p || exists k :: 0 <= k < |data| && Window(data, p)[i] == data[k]
  {
    if i < |Window(data, p)| - 1 {
      WindowShift(data, p, i);
    }
  }

  /** The window is the newest `|Window(data, p)|` points of `data + [p]`, in order. */
  lemma WindowShift(data: seq<Point>, p: Point, i: nat)
    requires i < |Window(data, p)| - 1
    ensures Window(data, p)[i] == data[|data| + 1 - |Window(data, p)| + i]
  {
  }

  /** Recording a non-negative rate keeps a series well-formed. */
  lemma RecordKeepsWellFormed(s: Series, p: Point)
    requires WellFormed(s) && p.rate >= 0.0
    ensures WellFormed(Record(s, p))
  {
    WindowKeepsRates(s.data, p);
  }

  /** The series after recording `ps` one by one, starting from `s`. */
  function RecordAll(s: Series, ps: seq<Point>): Series
    decreases |ps|
  {
    if ps == [] then s else Record(RecordAll(s, ps[..|ps| - 1]), ps[|ps| - 1])
  }

  /** The last `MAX_POINTS` elements of `ps`, in order (all of them when there are fewer). */
  function LastPoints(ps: seq<Point>): seq<Point> {
    if |ps| <= MAX_POINTS then ps else ps[|ps| - MAX_POINTS..]
  }

  /** The sum of the rates of `ps`. */
  function SumRates(ps: seq<Point>): real
    decreases |ps|
  {
    if ps == [] then 0.0 else SumRates(ps[..|ps| - 1]) + ps[|ps| - 1].rate
  }

  /** The least rate in `ps`, if any. */
  function MinRate(ps: seq<Point>): (r: Option<real>)
    ensures r.Some? <==> ps != []
    ensures r.Some? ==> forall i :: 0 <= i < |ps| ==> r.value <= ps[i].rate
    ensures r.Some? ==> exists i :: 0 <= i < |ps| && r.value == ps[i].rate
    decreases |ps|
  {
    if ps == [] then None
    else
      var pre := ps[..|ps| - 1];
      var m := MinRate(pre);
      assert forall i :: 0 <= i < |pre| ==> pre[i] == ps[i];
      MinWith(m, ps[|ps| - 1].rate)
  }

  /** The greatest rate in `ps`, if any. */
  function MaxRate(ps: seq<Point>): (r: Option<real>)
    ensures r.Some? <==> ps != []
    ensures r.Some? ==> forall i :: 0 <= i < |ps| ==> r.value >= ps[i].rate
    ensures r.Some? ==> exists i :: 0 <= i < |ps| && r.value == ps[i].rate
    decreases |ps|
  {
    if ps == [] then None
    else
      var pre := ps[..|ps| - 1];
      var m := MaxRate(pre);
      assert forall i :: 0 <= i < |pre| ==> pre[i] == ps[i];
      MaxWith(m, ps[|ps| - 1].rate)
  }

  /** One more sample moves the window of the last `MAX_POINTS` samples by one. */
  lemma WindowOfLast(ps: seq<Point>)
    requires ps != []
    ensures Window(LastPoints(ps[..|ps| - 1]), ps[|ps| - 1]) == LastPoints(ps)
  {
    var pre := ps[..|ps| - 1];
    var w := Window(LastPoints(pre), ps[|ps| - 1]);
    if |pre| >= MAX_POINTS {
      var k := |pre| - MAX_POINTS;
      assert forall i :: 0 <= i < MAX_POINTS ==> w[i] == ps[k + 1 + i];
    } else {
      assert forall i :: 0 <= i < |ps| ==> w[i] == ps[i];
    }
  }

  /** The window holds the last `MAX_POINTS` samples recorded, oldest first (FIFO eviction). */
  lemma {:induction false} RecordAllWindow(ps: seq<Point>)
    ensures RecordAll(EmptySeries, ps).data == LastPoints(ps)
    decreases |ps|
  {
    if ps != [] {
      RecordAllWindow(ps[..|ps| - 1]);
      WindowOfLast(ps);
    }
  }

  /** The running statistics are the sum, minimum and maximum over every sample recorded, not only the window. */
  lemma {:induction false} RecordAllStatistics(ps: seq<Point>)
    ensures RecordAll(EmptySeries, ps).sum == SumRates(ps)
    ensures RecordAll(EmptySeries, ps).min == MinRate(ps)
    ensures RecordAll(EmptySeries, ps).max == MaxRate(ps)
    ensures RecordAll(EmptySeries, ps).latest == if ps == [] then 0.0 else ps[|ps| - 1].rate
    decreases |ps|
  {
    if ps != [] {
      RecordAllStatistics(ps[..|ps| - 1]);
    }
  }

  // ------------------------------------------------------------------
  // The history of one interrupt source
  // ------------------------------------------------------------------

  /** Everything `push`, `sample` and the keys can change about one source, with the IRQ it is keyed by. */
  datatype SourceState = SourceState(irq: string, series: Series, prevCount: nat, visible: bool)

  /** Specification of `SourceHistory::push`. */
  function Pushed(st: SourceState, elapsedS: real, count: nat, intervalS: real): SourceState
    requires intervalS > 0.0
  {
    st.(series := Record(st.series, Point(elapsedS, Rate(st.prevCount, count, intervalS))), prevCount := count)
  }

  /** A push measures the growth since the previous push, and leaves the new count as the next baseline. */
  lemma PushedRate(st: SourceState, elapsedS: real, count: nat, intervalS: real)
    requires intervalS > 0.0 && WellFormed(st.series)
    ensures WellFormed(Pushed(st, elapsedS, count, intervalS).series)
    ensures Pushed(st, elapsedS, count, intervalS).series.latest == 0.0 <==> count <= st.prevCount
    ensures Pushed(st, elapsedS, count, intervalS).prevCount == count
  {
    RecordKeepsWellFormed(st.series, Point(elapsedS, Rate(st.prevCount, count, intervalS)));
  }

  class SourceHistory {
    const irq: string
    const name: string
    const deviceType: string
    const isController: bool
    const colorIdx: nat
    /** The history's position in the dashboard's list; it makes the list's entries distinct objects. */
    ghost const slot: nat
    var data: seq<Point>
    var prevCount: nat
    var latestRate: real
    var rateSum: real
    var rateMin: Option<real>
    var rateMax: Option<real>
    var visible: bool

    function History(): Series
      reads this`data, this`latestRate, this`rateSum, this`rateMin, this`rateMax
    {
      Series(data, latestRate, rateSum, rateMin, rateMax)
    }

    function State(): SourceState
      reads this
    {
      SourceState(irq, History(), prevCount, visible)
    }

    predicate Valid()
      reads this`data, this`latestRate, this`rateSum, this`rateMin, this`rateMax
    {
      WellFormed(History())
    }

    /** `SourceHistory::new`: visible, no samples, the given baseline count. */
    constructor(info: InterruptSourceInfo, initialCount: nat, colorIdx: nat, ghost slot: nat)
      ensures irq == info.irq && name == info.name && deviceType == info.deviceType
      ensures isController == info.isController && this.colorIdx == colorIdx && this.slot == slot
      ensures State() == SourceState(info.irq, EmptySeries, initialCount, true)
      ensures Valid()
    {
      irq := info.irq;
      name := info.name;
      deviceType := info.deviceType;
      isController := info.isController;
      this.colorIdx := colorIdx;
      this.slot := slot;
      data := [];
      prevCount := initialCount;
      latestRate := 0.0;
      rateSum := 0.0;
      rateMin := None;
      rateMax := None;
      visible := true;
    }

    /** `SourceHistory::push` */
    method Push(elapsedS: real, count: nat, intervalS: real)
      requires intervalS > 0.0 && Valid()
      modifies this`data, this`prevCount, this`latestRate, this`rateSum, this`rateMin, this`rateMax
      ensures Valid()
      ensures State() == Pushed(old(State()), elapsedS, count, intervalS)
      ensures latestRate == Rate(old(prevCount), count, intervalS)
    {
      var delta := if count >= prevCount then count - prevCount else 0;
      var rate := delta as real / intervalS;
      ghost var before := History();
      ghost var st := State();
      assert st == SourceState(irq, before, prevCount, visible);
      ghost var p := Point(elapsedS, Rate(prevCount, count, intervalS));
      assert Pushed(st, elapsedS, count, intervalS) == SourceState(irq, Record(before, p), count, visible);
      assert rate == p.rate;
      data := Window(data, Point(elapsedS, rate));
      prevCount := count;
      latestRate := rate;
      rateSum := rateSum + rate;
      rateMin := MinWith(rateMin, rate);
      rateMax := MaxWith(rateMax, rate);
      assert History() == Record(before, p);
      RecordKeepsWellFormed(before, p);
    }
  }

  /** The states of a sequence of histories, in order. */
  function StatesOf(ss: seq<SourceHistory>): (r: seq<SourceState>)
    reads ss
    ensures |r| == |ss|
    ensures forall i :: 0 <= i < |ss| ==> r[i] == ss[i].State()
  {
    seq(|ss|, i reads ss requires 0 <= i < |ss| => ss[i].State())
  }

  /** The histories show the states `sts`, one by one. */
  lemma StatesAt(ss: seq<SourceHistory>, sts: seq<SourceState>)
    requires |ss| == |sts| && forall j :: 0 <= j < |ss| ==> ss[j].State() == sts[j]
    ensures StatesOf(ss) == sts
  {
    assert forall j :: 0 <= j < |ss| ==> StatesOf(ss)[j] == sts[j];
  }

  // ------------------------------------------------------------------
  // Building the rows from the topology
  // ------------------------------------------------------------------

  /** How many rows of `rows` have the role `isController`. */
  function CountRole(rows: seq<InterruptSourceInfo>, isController: bool): (n: nat)
    ensures n <= |rows|
    decreases |rows|
  {
    if rows == [] then 0
    else CountRole(rows[..|rows| - 1], isController) + if rows[|rows| - 1].isController == isController then 1 else 0
  }

  /** The colour index `init_from_topology` gives row `i`: how many rows of its role come before it. */
  function RoleRank(rows: seq<InterruptSourceInfo>, i: nat): nat
    requires i < |rows|
  {
    CountRole(rows[..i], rows[i].isController)
  }

  /** Counting one more row. */
  lemma CountRoleStep(rows: seq<InterruptSourceInfo>, i: nat, isController: bool)
    requires i < |rows|
    ensures CountRole(rows[..i + 1], isController)
         == CountRole(rows[..i], isController) + if rows[i].isController == isController then 1 else 0
  {
    assert rows[..i + 1][..i] == rows[..i];
  }

  /** A longer prefix has at least as many rows of each role. */
  lemma {:induction false} CountRoleMonotone(rows: seq<InterruptSourceInfo>, i: nat, j: nat, isController: bool)
    requires i <= j <= |rows|
    ensures CountRole(rows[..i], isController) <= CountRole(rows[..j], isController)
    decreases j - i
  {
    if i < j {
      CountRoleMonotone(rows, i, j - 1, isController);
      CountRoleStep(rows, j - 1, isController);
    }
  }

  /** Colour indices count up separately per role: a later row of the same role has a larger index. */
  lemma RoleRankIncreasing(rows: seq<InterruptSourceInfo>, i: nat, j: nat)
    requires i < j < |rows| && rows[i].isController == rows[j].isController
    ensures RoleRank(rows, i) < RoleRank(rows, j)
  {
    var b := rows[i].isController;
    CountRoleStep(rows, i, b);
    CountRoleMonotone(rows, i + 1, j, b);
  }

  /** Every colour index is below the number of rows of its role, so the indices of a role are exactly 0, 1, 2, and so on. */
  lemma RoleRankBelowCount(rows: seq<InterruptSourceInfo>, j: nat)
    requires j < |rows|
    ensures RoleRank(rows, j) < CountRole(rows, rows[j].isController)
  {
    var b := rows[j].isController;
    CountRoleStep(rows, j, b);
    CountRoleMonotone(rows, j + 1, |rows|, b);
    assert rows[..|rows|] == rows;
  }

  /** The state `init_from_topology` gives a row: baseline from the initial counts, or 0. */
  function InitialState(row: InterruptSourceInfo, initialCounts: map<string, nat>): SourceState {
    SourceState(row.irq, EmptySeries, Lookup(initialCounts, row.irq).GetOr(0), true)
  }

  /** The states `init_from_topology` gives the rows, in order. */
  function InitialStates(rows: seq<InterruptSourceInfo>, initialCounts: map<string, nat>): (r: seq<SourceState>)
    ensures |r| == |rows|
    ensures forall i :: 0 <= i < |rows| ==> r[i] == InitialState(rows[i], initialCounts)
  {
    seq(|rows|, i requires 0 <= i < |rows| => InitialState(rows[i], initialCounts))
  }

  /** History `h` is the one built for row `i` of `rows`. */
  predicate Describes(h: SourceHistory, rows: seq<InterruptSourceInfo>, i: nat)
    requires i < |rows|
  {
    && h.irq == rows[i].irq && h.name == rows[i].name && h.deviceType == rows[i].deviceType
    && h.isController == rows[i].isController && h.colorIdx == RoleRank(rows, i)
  }

  // ------------------------------------------------------------------
  // The dashboard as a value
  // ------------------------------------------------------------------

  /** Everything about an `App` that its methods change. */
  datatype AppView = AppView(
    sources: seq<SourceState>,
    total: Series,
    sampleCount: nat,
    shouldQuit: bool,
    selectedIdx: nat,
    totalVisible: bool)

  /** `select_next` over `n` sources and the TOTAL row: forward, wrapping from the TOTAL row to the first. */
  function NextSlot(idx: nat, n: nat): (r: nat)
    ensures r <= n
    ensures idx < n ==> r == idx + 1
    ensures idx == n ==> r == 0
  {
    (idx + 1) % (n + 1)
  }

  /** `select_prev`: backward, wrapping from the first row to the TOTAL row. */
  function PrevSlot(idx: nat, n: nat): (r: nat)
    ensures idx <= n ==> r <= n
    ensures 0 < idx ==> r + 1 == idx
    ensures idx == 0 ==> r == n
  {
    if idx > 0 then idx - 1 else n
  }

  /** On the `n + 1` rows, moving down then up, or up then down, returns to the same row. */
  lemma SlotsInverse(idx: nat, n: nat)
    requires idx <= n
    ensures PrevSlot(NextSlot(idx, n), n) == idx
    ensures NextSlot(PrevSlot(idx, n), n) == idx
  {
  }

  /** Moving down `k` times. */
  function NextSlots(idx: nat, n: nat, k: nat): nat
    decreases k
  {
    if k == 0 then idx else NextSlot(NextSlots(idx, n, k - 1), n)
  }

  /** Euclidean remainder is unique. */
  lemma ModUnique(x: int, q: int, r: int, m: int)
    requires m > 0 && x == q * m + r && 0 <= r < m
    ensures x % m == r
  {
    var k := x / m - q;
    assert m * k == r - x % m;
    if k > 0 {
      assert false;
    } else if k < 0 {
      assert false;
    }
  }

  /** Taking the remainder before adding one does not change the remainder after. */
  lemma ModNext(a: nat, m: nat)
    requires m > 0
    ensures (a % m + 1) % m == (a + 1) % m
  {
    var q, r := a / m, a % m;
    if r + 1 == m {
      ModUnique(a + 1, q + 1, 0, m);
      ModUnique(r + 1, 1, 0, m);
    } else {
      ModUnique(a + 1, q, r + 1, m);
      ModUnique(r + 1, 0, r + 1, m);
    }
  }

  /** Moving down `k` times from row `idx` reaches row `(idx + k) mod (n + 1)`: every row is reached, and `n + 1` moves come back. */
  lemma {:induction false} NextSlotsCycle(idx: nat, n: nat, k: nat)
    requires idx <= n
    ensures NextSlots(idx, n, k) == (idx + k) % (n + 1)
    decreases k
  {
    if k == 0 {
      ModUnique(idx, 0, idx, n + 1);
    } else {
      NextSlotsCycle(idx, n, k - 1);
      ModNext(idx + k - 1, n + 1);
    }
  }

  /** Specification of `select_next`. */
  function NextRow(v: AppView): AppView {
    v.(selectedIdx := NextSlot(v.selectedIdx, |v.sources|))
  }

  /** Specification of `select_prev`. */
  function PrevRow(v: AppView): AppView {
    v.(selectedIdx := PrevSlot(v.selectedIdx, |v.sources|))
  }

  /** `toggle_visibility`: the selected source's flag, or the TOTAL row's when the cursor is past the sources. */
  function Toggled(v: AppView): AppView {
    if v.selectedIdx < |v.sources| then
      var s := v.sources[v.selectedIdx];
      v.(sources := v.sources[v.selectedIdx := s.(visible := !s.visible)])
    else
      v.(totalVisible := !v.totalVisible)
  }

  /** A toggle flips exactly one visibility flag and changes nothing else. */
  lemma ToggledFlipsOne(v: AppView)
    ensures |Toggled(v).sources| == |v.sources|
    ensures v.selectedIdx < |v.sources| ==>
      && Toggled(v).sources[v.selectedIdx] == v.sources[v.selectedIdx].(visible := !v.sources[v.selectedIdx].visible)
      && Toggled(v).totalVisible == v.totalVisible
    ensures v.selectedIdx >= |v.sources| ==> Toggled(v).totalVisible == !v.totalVisible && Toggled(v).sources == v.sources
    ensures forall i :: 0 <= i < |v.sources| && i != v.selectedIdx ==> Toggled(v).sources[i] == v.sources[i]
    ensures Toggled(v).(sources := v.sources, totalVisible := v.totalVisible) == v
  {
  }

  /** Toggling twice restores the dashboard. */
  lemma ToggledTwice(v: AppView)
    ensures Toggled(Toggled(v)) == v
  {
  }

  /** The keys the dashboard reacts to; `Other` stands for every other key code. */
  datatype Key = Char(c: char) | Esc | Up | Down | Other

  /** `handle_key` */
  function KeyStep(v: AppView, key: Key): AppView {
    match key
    case Esc => v.(shouldQuit := true)
    case Up => PrevRow(v)
    case Down => NextRow(v)
    case Other => v
    case Char(c) =>
      if c == 'q' then v.(shouldQuit := true)
      else if c == 'k' then PrevRow(v)
      else if c == 'j' then NextRow(v)
      else if c == ' ' then Toggled(v)
      else v
  }

  /**
   * Only `q` and Esc ask to quit; no key touches the samples or the
   * statistics, and the cursor stays on one of the `n + 1` rows.
   */
  lemma KeyStepEffects(v: AppView, key: Key)
    ensures KeyStep(v, key).shouldQuit == (v.shouldQuit || key == Esc || key == Char('q'))
    ensures KeyStep(v, key).total == v.total && KeyStep(v, key).sampleCount == v.sampleCount
    ensures |KeyStep(v, key).sources| == |v.sources|
    ensures forall i :: 0 <= i < |v.sources| ==>
      KeyStep(v, key).sources[i] == v.sources[i].(visible := KeyStep(v, key).sources[i].visible)
    ensures v.selectedIdx <= |v.sources| ==> KeyStep(v, key).selectedIdx <= |v.sources|
  {
  }

  /** Any key other than the seven bound ones leaves the dashboard as it was. */
  lemma KeyStepUnbound(v: AppView, key: Key)
    requires key !in {Esc, Up, Down, Char('q'), Char('k'), Char('j'), Char(' ')}
    ensures KeyStep(v, key) == v
  {
  }

  // ------------------------------------------------------------------
  // Sampling
  // ------------------------------------------------------------------

  /** One source in `sample`: pushed when its IRQ is in the snapshot, untouched otherwise. */
  function SampleOne(st: SourceState, counts: map<string, nat>, elapsedS: real, intervalS: real): SourceState
    requires intervalS > 0.0
  {
    if st.irq in counts then Pushed(st, elapsedS, counts[st.irq], intervalS) else st
  }

  /** The sources after `sample`, one by one. */
  function SampledStates(sts: seq<SourceState>, counts: map<string, nat>, elapsedS: real, intervalS: real)
    : (r: seq<SourceState>)
    requires intervalS > 0.0
    ensures |r| == |sts|
    ensures forall i :: 0 <= i < |sts| ==> r[i] == SampleOne(sts[i], counts, elapsedS, intervalS)
  {
    seq(|sts|, i requires 0 <= i < |sts| => SampleOne(sts[i], counts, elapsedS, intervalS))
  }

  /** The rate a source contributes to the TOTAL row: its new rate when present in the snapshot, else nothing. */
  function Contribution(st: SourceState, counts: map<string, nat>, intervalS: real): (r: real)
    requires intervalS > 0.0
    ensures r >= 0.0
  {
    if st.irq in counts then Rate(st.prevCount, counts[st.irq], intervalS) else 0.0
  }

  /** The TOTAL rate of a sample: the sum of the rates of the sources present in the snapshot. */
  function TotalRate(sts: seq<SourceState>, counts: map<string, nat>, intervalS: real): (r: real)
    requires intervalS > 0.0
    ensures r >= 0.0
    decreases |sts|
  {
    if sts == [] then 0.0
    else TotalRate(sts[..|sts| - 1], counts, intervalS) + Contribution(sts[|sts| - 1], counts, intervalS)
  }

  /** Summing one more source. */
  lemma TotalRateStep(sts: seq<SourceState>, i: nat, counts: map<string, nat>, intervalS: real)
    requires intervalS > 0.0 && i < |sts|
    ensures TotalRate(sts[..i + 1], counts, intervalS)
         == TotalRate(sts[..i], counts, intervalS) + Contribution(sts[i], counts, intervalS)
  {
    assert sts[..i + 1][..i] == sts[..i];
  }

  /** Every present source's new rate is at most the TOTAL. */
  lemma {:induction false} TotalRateCovers(sts: seq<SourceState>, counts: map<string, nat>, elapsedS: real, intervalS: real)
    requires intervalS > 0.0
    ensures forall i :: 0 <= i < |sts| && sts[i].irq in counts ==>
      SampleOne(sts[i], counts, elapsedS, intervalS).series.latest <= TotalRate(sts, counts, intervalS)
    decreases |sts|
  {
    if sts != [] {
      var pre := sts[..|sts| - 1];
      TotalRateCovers(pre, counts, elapsedS, intervalS);
      assert forall i :: 0 <= i < |pre| ==> pre[i] == sts[i];
    }
  }

  /** The TOTAL is zero exactly when no present source's counter grew since its previous sample. */
  lemma {:induction false} TotalRateZero(sts: seq<SourceState>, counts: map<string, nat>, intervalS: real)
    requires intervalS > 0.0
    ensures TotalRate(sts, counts, intervalS) == 0.0
        <==> forall i :: 0 <= i < |sts| && sts[i].irq in counts ==> counts[sts[i].irq] <= sts[i].prevCount
    decreases |sts|
  {
    if sts != [] {
      var pre := sts[..|sts| - 1];
      TotalRateZero(pre, counts, intervalS);
      assert forall i :: 0 <= i < |pre| ==> pre[i] == sts[i];
      var last := sts[|sts| - 1];
      if last.irq in counts && counts[last.irq] > last.prevCount {
        assert Contribution(last, counts, intervalS) * intervalS > 0.0;
      }
    }
  }

  /** Specification of `App::sample`. */
  function Sampled(v: AppView, counts: map<string, nat>, elapsedS: real, intervalS: real): AppView
    requires intervalS > 0.0
  {
    v.(sources := SampledStates(v.sources, counts, elapsedS, intervalS),
       total := Record(v.total, Point(elapsedS, TotalRate(v.sources, counts, intervalS))),
       sampleCount := v.sampleCount + 1)
  }

  /**
   * A sample changes only the sampled data: the cursor, the flags and the
   * quit request stay, the count of samples goes up by one, and the sources
   * absent from the snapshot keep their baseline and their series.
   */
  lemma SampledEffects(v: AppView, counts: map<string, nat>, elapsedS: real, intervalS: real)
    requires intervalS > 0.0
    ensures Sampled(v, counts, elapsedS, intervalS).sampleCount == v.sampleCount + 1
    ensures Sampled(v, counts, elapsedS, intervalS).(sources := v.sources, total := v.total, sampleCount := v.sampleCount) == v
    ensures forall i :: 0 <= i < |v.sources| && v.sources[i].irq !in counts ==>
      Sampled(v, counts, elapsedS, intervalS).sources[i] == v.sources[i]
    ensures forall i :: 0 <= i < |v.sources| && v.sources[i].irq in counts ==>
      Sampled(v, counts, elapsedS, intervalS).sources[i].prevCount == counts[v.sources[i].irq]
    ensures forall i :: 0 <= i < |v.sources| ==>
      Sampled(v, counts, elapsedS, intervalS).sources[i].visible == v.sources[i].visible
  {
  }

  // ------------------------------------------------------------------
  // Chart bounds
  // ------------------------------------------------------------------

  /** `x_bounds`: a 60-second window that ends now, or the first 60 seconds. */
  function XBounds(elapsedS: Seconds): (r: (real, real))
    ensures r.1 - r.0 == 60.0
    ensures 0.0 <= r.0 <= elapsedS <= r.1
    ensures r.1 == if elapsedS > 60.0 then elapsedS else 60.0
  {
    if elapsedS <= 60.0 then (0.0, if 60.0 > elapsedS then 60.0 else elapsedS) else (elapsedS - 60.0, elapsedS)
  }

  /** The running maximum `m` folded over the rates of `ps` (`max = max.max(rate)`). */
  function MaxOver(m: real, ps: seq<Point>): (r: real)
    ensures r >= m
    ensures forall i :: 0 <= i < |ps| ==> ps[i].rate <= r
    ensures r == m || exists i :: 0 <= i < |ps| && r == ps[i].rate
    decreases |ps|
  {
    if ps == [] then m
    else
      var r := MaxOver(if ps[0].rate > m then ps[0].rate else m, ps[1..]);
      assert forall i :: 1 <= i < |ps| ==> ps[1..][i - 1] == ps[i];
      r
  }

  /** The inner loop of `y_max`: the running maximum folded over one series' points. */
  method MaxOverPoints(m: real, ps: seq<Point>) returns (r: real)
    ensures r == MaxOver(m, ps)
  {
    r := m;
    var k := 0;
    while k < |ps|
      invariant 0 <= k <= |ps|
      invariant MaxOver(r, ps[k..]) == MaxOver(m, ps)
    {
      assert ps[k..][1..] == ps[k + 1..];
      if ps[k].rate > r {
        r := ps[k].rate;
      }
      k := k + 1;
    }
  }

  /** The running maximum folded over the series of the visible sources. */
  function SourcesMax(m: real, sts: seq<SourceState>): (r: real)
    ensures r >= m
    decreases |sts|
  {
    if sts == [] then m
    else SourcesMax(if sts[0].visible then MaxOver(m, sts[0].series.data) else m, sts[1..])
  }

  /** The largest rate the chart shows: over the visible sources and, when visible, the TOTAL row; 0 if none. */
  function VisibleMax(v: AppView): real {
    var m := SourcesMax(0.0, v.sources);
    if v.totalVisible then MaxOver(m, v.total.data) else m
  }

  /** The height `y_max` rounds up to a label step: 10% above the visible maximum, and at least 10. */
  function RawYMax(v: AppView): (r: real)
    ensures r >= 10.0
  {
    var m := VisibleMax(v) * 1.1;
    if m > 10.0 then m else 10.0
  }

  lemma {:induction false} SourcesMaxCovers(m: real, sts: seq<SourceState>)
    ensures forall i, k :: 0 <= i < |sts| && sts[i].visible && 0 <= k < |sts[i].series.data| ==>
      sts[i].series.data[k].rate <= SourcesMax(m, sts)
    decreases |sts|
  {
    if sts != [] {
      var m' := if sts[0].visible then MaxOver(m, sts[0].series.data) else m;
      SourcesMaxCovers(m', sts[1..]);
      assert forall i :: 1 <= i < |sts| ==> sts[1..][i - 1] == sts[i];
    }
  }

  lemma {:induction false} SourcesMaxAttained(m: real, sts: seq<SourceState>)
    ensures || SourcesMax(m, sts) == m
            || (exists i, k :: 0 <= i < |sts| && sts[i].visible && 0 <= k < |sts[i].series.data|
                 && SourcesMax(m, sts) == sts[i].series.data[k].rate)
    decreases |sts|
  {
    if sts != [] {
      var m' := if sts[0].visible then MaxOver(m, sts[0].series.data) else m;
      SourcesMaxAttained(m', sts[1..]);
      var r := SourcesMax(m, sts);
      if r != m' {
        var i, k :| 0 <= i < |sts[1..]| && sts[1..][i].visible && 0 <= k < |sts[1..][i].series.data|
          && r == sts[1..][i].series.data[k].rate;
        assert sts[1..][i] == sts[i + 1];
      } else if r != m {
        var k :| 0 <= k < |sts[0].series.data| && r == sts[0].series.data[k].rate;
        assert sts[0].visible;
      }
    }
  }

  /**
   * The chart is tall enough for every visible sample with 10% headroom,
   * and no taller than needed: its height is 10 or 1.1 times a visible rate.
   * Hidden sources do not count.
   */
  lemma RawYMaxBounds(v: AppView)
    requires forall i :: 0 <= i < |v.sources| ==> WellFormed(v.sources[i].series)
    ensures forall i, k :: 0 <= i < |v.sources| && v.sources[i].visible && 0 <= k < |v.sources[i].series.data| ==>
      v.sources[i].series.data[k].rate * 1.1 <= RawYMax(v)
    ensures v.totalVisible ==> forall k :: 0 <= k < |v.total.data| ==> v.total.data[k].rate * 1.1 <= RawYMax(v)
    ensures || RawYMax(v) == 10.0
            || (exists i, k :: 0 <= i < |v.sources| && v.sources[i].visible && 0 <= k < |v.sources[i].series.data|
                 && RawYMax(v) == v.sources[i].series.data[k].rate * 1.1)
            || (v.totalVisible && exists k :: 0 <= k < |v.total.data| && RawYMax(v) == v.total.data[k].rate * 1.1)
  {
    SourcesMaxCovers(0.0, v.sources);
    SourcesMaxAttained(0.0, v.sources);
  }

  // ------------------------------------------------------------------
  // The dashboard
  // ------------------------------------------------------------------

  /** Valid histories, each at its own slot (so no object appears twice). */
  ghost predicate ValidSources(ss: seq<SourceHistory>)
    reads ss
  {
    forall i :: 0 <= i < |ss| ==> ss[i].slot == i && ss[i].Valid()
  }

  /** History `h` is the fresh one built for row `i` of `rows`. */
  predicate Built(h: SourceHistory, rows: seq<InterruptSourceInfo>, i: nat, initialCounts: map<string, nat>)
    requires i < |rows|
    reads h
  {
    Describes(h, rows, i) && h.State() == InitialState(rows[i], initialCounts) && h.Valid()
  }

  /**
   * The histories `hs` are the ones built for `rows`, one per row and in
   * order: distinct, valid, and starting from the snapshot's counts.
   */
  ghost predicate Installed(hs: seq<SourceHistory>, rows: seq<InterruptSourceInfo>, initialCounts: map<string, nat>)
    reads hs
  {
    && |hs| == |rows|
    && (forall j :: 0 <= j < |rows| ==> Built(hs[j], rows, j, initialCounts) && hs[j].slot == j)
  }

  /** The loop of `init_from_topology`, with its two colour counters. */
  method NewHistories(rows: seq<InterruptSourceInfo>, initialCounts: map<string, nat>) returns (hs: seq<SourceHistory>)
    ensures forall j :: 0 <= j < |hs| ==> fresh(hs[j])
    ensures Installed(hs, rows, initialCounts)
  {
    hs := [];
    var controllerIdx := 0;
    var hidIdx := 0;
    var i := 0;
    while i < |rows|
      invariant 0 <= i <= |rows| && |hs| == i
      invariant controllerIdx == CountRole(rows[..i], true) && hidIdx == CountRole(rows[..i], false)
      invariant forall j :: 0 <= j < i ==> fresh(hs[j]) && Built(hs[j], rows, j, initialCounts) && hs[j].slot == j
    {
      var info := rows[i];
      var count := Lookup(initialCounts, info.irq).GetOr(0);
      var colorIdx;
      if info.isController {
        colorIdx := controllerIdx;
        controllerIdx := controllerIdx + 1;
      } else {
        colorIdx := hidIdx;
        hidIdx := hidIdx + 1;
      }
      CountRoleStep(rows, i, true);
      CountRoleStep(rows, i, false);
      var h := new SourceHistory(info, count, colorIdx, i);
      hs := hs + [h];
      i := i + 1;
    }
  }

  /** Installed histories are valid, distinct, and show exactly the initial states of their rows. */
  lemma BuiltStates(hs: seq<SourceHistory>, rows: seq<InterruptSourceInfo>, initialCounts: map<string, nat>)
    requires Installed(hs, rows, initialCounts)
    ensures ValidSources(hs)
    ensures forall i, j :: 0 <= i < j < |hs| ==> hs[i] != hs[j]
    ensures StatesOf(hs) == InitialStates(rows, initialCounts)
  {
    assert forall j :: 0 <= j < |hs| ==> StatesOf(hs)[j] == InitialStates(rows, initialCounts)[j];
  }

  /** One step of `sample`'s loop: history `i` takes its sample, the others stay as they were. */
  method PushOne(ss: seq<SourceHistory>, i: nat, counts: map<string, nat>, elapsedS: real, intervalS: real)
    returns (rate: real)
    requires intervalS > 0.0 && ValidSources(ss) && i < |ss|
    modifies ss`data, ss`prevCount, ss`latestRate, ss`rateSum, ss`rateMin, ss`rateMax
    ensures ValidSources(ss)
    ensures ss[i].State() == SampleOne(old(ss[i].State()), counts, elapsedS, intervalS)
    ensures forall j :: 0 <= j < |ss| && j != i ==> ss[j].State() == old(ss[j].State())
    ensures rate == Contribution(old(ss[i].State()), counts, intervalS)
  {
    var s := ss[i];
    if s.irq in counts {
      s.Push(elapsedS, counts[s.irq], intervalS);
      rate := s.latestRate;
    } else {
      rate := 0.0;
    }
  }

  /**
   * The loop of `sample`: every history whose IRQ is in the snapshot gets
   * a new point, and the rates pushed are summed into the TOTAL.
   */
  method PushAll(ss: seq<SourceHistory>, counts: map<string, nat>, elapsedS: real, intervalS: real)
    returns (totalRate: real)
    requires intervalS > 0.0 && ValidSources(ss)
    modifies ss`data, ss`prevCount, ss`latestRate, ss`rateSum, ss`rateMin, ss`rateMax
    ensures ValidSources(ss)
    ensures StatesOf(ss) == SampledStates(old(StatesOf(ss)), counts, elapsedS, intervalS)
    ensures totalRate == TotalRate(old(StatesOf(ss)), counts, intervalS)
  {
    ghost var before := StatesOf(ss);
    ghost var after := SampledStates(before, counts, elapsedS, intervalS);
    totalRate := 0.0;
    var i := 0;
    while i < |ss|
      invariant 0 <= i <= |ss| && ValidSources(ss)
      invariant forall j :: 0 <= j < i ==> ss[j].State() == after[j]
      invariant forall j :: i <= j < |ss| ==> ss[j].State() == before[j]
      invariant totalRate == TotalRate(before[..i], counts, intervalS)
    {
      TotalRateStep(before, i, counts, intervalS);
      var rate := PushOne(ss, i, counts, elapsedS, intervalS);
      totalRate := totalRate + rate;
      i := i + 1;
    }
    assert before[..i] == before;
    StatesAt(ss, after);
  }

  class App {
    var sources: seq<SourceHistory>
    var totalHistory: seq<Point>
    var totalLatest: real
    var totalSum: real
    var totalMin: Option<real>
    var totalMax: Option<real>
    var sampleCount: nat
    const intervalMs: nat
    var shouldQuit: bool
    var selectedIdx: nat
    var totalVisible: bool
    const threshold: real

    function Total(): Series
      reads this`totalHistory, this`totalLatest, this`totalSum, this`totalMin, this`totalMax
    {
      Series(totalHistory, totalLatest, totalSum, totalMin, totalMax)
    }

    function View(): AppView
      reads this, sources
    {
      AppView(StatesOf(sources), Total(), sampleCount, shouldQuit, selectedIdx, totalVisible)
    }

    /** The sampling interval in seconds. */
    function IntervalS(): real {
      intervalMs as real / 1000.0
    }

    /** The part of `Valid` that does not depend on the sources. */
    predicate TotalValid()
      reads this`totalHistory, this`totalLatest, this`totalSum, this`totalMin, this`totalMax
    {
      intervalMs > 0 && WellFormed(Total())
    }

    ghost predicate Valid()
      reads this, sources
    {
      TotalValid() && ValidSources(sources)
    }

    /** `App::new` */
    constructor(intervalMs: nat, threshold: real)
      requires intervalMs > 0
      ensures Valid() && sources == []
      ensures this.intervalMs == intervalMs && this.threshold == threshold
      ensures View() == AppView([], EmptySeries, 0, false, 0, true)
    {
      sources := [];
      totalHistory := [];
      totalLatest := 0.0;
      totalSum := 0.0;
      totalMin := None;
      totalMax := None;
      sampleCount := 0;
      this.intervalMs := intervalMs;
      shouldQuit := false;
      selectedIdx := 0;
      totalVisible := true;
      this.threshold := threshold;
    }

    /**
     * `init_from_topology`: one fresh history per row of `all_sources`, in
     * order. The cursor is not reset.
     */
    method InitFromTopology(topology: I2cTopology, initialCounts: map<string, nat>)
      requires TotalValid()
      modifies this
      ensures Valid()
      ensures forall i :: 0 <= i < |sources| ==> fresh(sources[i])
      ensures Installed(sources, SourcesOf(topology.controllers), initialCounts)
      ensures Total() == old(Total()) && sampleCount == old(sampleCount) && shouldQuit == old(shouldQuit)
      ensures selectedIdx == old(selectedIdx) && totalVisible == old(totalVisible)
    {
      var rows := SourcesOf(topology.controllers);
      var created := NewHistories(rows, initialCounts);
      sources := created;
    }

    /** `selectable_count`: one row per source and the TOTAL row, so never zero. */
    function SelectableCount(): (r: nat)
      reads this
      ensures r > |sources| && r > 0
    {
      |sources| + 1
    }

    /** `select_prev` */
    method SelectPrev()
      requires Valid()
      modifies this
      ensures Valid() && sources == old(sources)
      ensures View() == PrevRow(old(View()))
    {
      var count := SelectableCount();
      if selectedIdx > 0 {
        selectedIdx := selectedIdx - 1;
      } else {
        selectedIdx := count - 1;
      }
    }

    /** `select_next` */
    method SelectNext()
      requires Valid()
      modifies this
      ensures Valid() && sources == old(sources)
      ensures View() == NextRow(old(View()))
    {
      var count := SelectableCount();
      selectedIdx := (selectedIdx + 1) % count;
    }

    /** `toggle_visibility` */
    method ToggleVisibility()
      requires Valid()
      modifies this, sources
      ensures Valid() && sources == old(sources)
      ensures View() == Toggled(old(View()))
    {
      ghost var v := View();
      if selectedIdx < |sources| {
        var s := sources[selectedIdx];
        s.visible := !s.visible;
        ToggledFlipsOne(v);
        StatesAt(sources, Toggled(v).sources);
      } else {
        totalVisible := !totalVisible;
      }
    }

    /** `sample`: push the snapshot's count into every source it has a count for, then record the TOTAL. */
    method Sample(irqCounts: map<string, nat>, elapsedS: real)
      requires Valid()
      modifies this, sources
      ensures Valid() && sources == old(sources)
      ensures View() == Sampled(old(View()), irqCounts, elapsedS, IntervalS())
    {
      var intervalS := intervalMs as real / 1000.0;
      var totalRate := PushSources(irqCounts, elapsedS, intervalS);
      RecordTotal(Point(elapsedS, totalRate));
    }

    /** The sources' part of `sample`, as a change of the dashboard's view. */
    method PushSources(counts: map<string, nat>, elapsedS: real, intervalS: real) returns (totalRate: real)
      requires Valid() && intervalS > 0.0
      modifies sources`data, sources`prevCount, sources`latestRate, sources`rateSum, sources`rateMin, sources`rateMax
      ensures Valid()
      ensures View() == old(View()).(sources := SampledStates(old(View()).sources, counts, elapsedS, intervalS))
      ensures totalRate == TotalRate(old(View()).sources, counts, intervalS)
    {
      totalRate := PushAll(sources, counts, elapsedS, intervalS);
    }

    /** The TOTAL-row part of `sample`: record the summed rate and count the sample. */
    method RecordTotal(p: Point)
      requires Valid() && p.rate >= 0.0
      modifies this`totalHistory, this`totalLatest, this`totalSum, this`totalMin, this`totalMax, this`sampleCount
      ensures Valid()
      ensures View() == old(View()).(total := Record(old(View()).total, p), sampleCount := old(View()).sampleCount + 1)
    {
      RecordKeepsWellFormed(Total(), p);
      var t := Record(Total(), p);
      totalHistory, totalLatest, totalSum, totalMin, totalMax, sampleCount :=
        t.data, t.latest, t.sum, t.min, t.max, sampleCount + 1;
    }

    /** `y_max` before the rounding to a label step. */
    method YMax() returns (raw: real)
      ensures raw == RawYMax(View())
    {
      var m := 0.0;
      var i := 0;
      ghost var sts := StatesOf(sources);
      while i < |sources|
        invariant 0 <= i <= |sources|
        invariant SourcesMax(m, sts[i..]) == SourcesMax(0.0, sts)
      {
        assert sts[i..][1..] == sts[i + 1..];
        var s := sources[i];
        if s.visible {
          m := MaxOverPoints(m, s.data);
        }
        i := i + 1;
      }
      if totalVisible {
        m := MaxOverPoints(m, totalHistory);
      }
      raw := if m * 1.1 > 10.0 then m * 1.1 else 10.0;
    }
  }

  /** `handle_key` */
  method HandleKey(app: App, key: Key)
    requires app.Valid()
    modifies app, app.sources
    ensures app.Valid() && app.sources == old(app.sources)
    ensures app.View() == KeyStep(old(app.View()), key)
  {
    match key
    case Esc => app.shouldQuit := true;
    case Up => app.SelectPrev();
    case Down => app.SelectNext();
    case Other =>
    case Char(c) =>
      if c == 'q' {
        app.shouldQuit := true;
      } else if c == 'k' {
        app.SelectPrev();
      } else if c == 'j' {
        app.SelectNext();
      } else if c == ' ' {
        app.ToggleVisibility();
      }
  }
}
