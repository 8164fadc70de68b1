/**
 * The curses front end: it lays the GPU cards out on the terminal, keeps the current view
 * (overwatch gauges or process lists), and draws every GPU of the tracker's latest buffer into
 * its card. What curses would draw is returned as a plan of paints.
 */
module Tui {
  import opened Wrappers
  import opened Snapshot
  import opened Query
  import opened Grid
  import opened Gauge

  /** The two values `current_view` takes: `"overwatch"` and `"process"`. */
  datatype View = Overwatch | ProcessView

  /** `_swap_view`'s change of view. */
  function Swapped(view: View): (next: View)
    ensures next != view
  {
    match view
    case Overwatch => ProcessView
    case ProcessView => Overwatch
  }

  /** Swapping twice gives back the view one started with. */
  lemma SwappedTwice(view: View)
    ensures Swapped(Swapped(view)) == view
  {
  }

  /** The `poll_thread` attribute: none yet, started by `run`, or joined by `stop`. */
  datatype ThreadState = NoThread | Running | Joined

  /**
   * What the front end raises: `min` over no candidate (more than nine GPUs), a terminal too small
   * in Y or in X, or `None.join` when the root copy stops a thread it never started.
   */
  datatype FrontEndFault = NoGridSide | TooSmallY | TooSmallX | NoThreadToJoin

  /** `card_buffer_y` and `card_buffer_x`: 10 in the packaged copy, 11 in the root copy. */
  function CardBuffer(v: Variant): (buffer: int)
    ensures buffer == 10 <==> v == Packaged
    ensures 10 <= buffer <= 11
  {
    if v == Packaged then 10 else 11
  }

  /** An accepted layout: the grid side and the size of each card. */
  datatype Layout = Layout(side: int, height: int, width: int)

  /**
   * How a size rejection surfaces: the packaged copy stops the poll thread only when there is
   * one, the root copy always calls `stop()`, which fails first when there is no thread.
   */
  function Rejection(v: Variant, threadStarted: bool, fault: FrontEndFault): FrontEndFault {
    if v == Root && !threadStarted then NoThreadToJoin else fault
  }

  /** The outcome of `_initialize_gpu_windows` for a terminal of `rows x cols`. */
  function LayoutFor(v: Variant, numGpus: int, rows: int, cols: int, threadStarted: bool): (r: Result<Layout, FrontEndFault>)
    ensures r.Success? ==>
      1 <= r.value.side <= 3 && r.value.side * r.value.side >= numGpus
      && r.value.height == CardSize(rows, r.value.side) > CardBuffer(v)
      && r.value.width == CardSize(cols, r.value.side) > CardBuffer(v)
    ensures r == Failure(NoThreadToJoin) ==> v == Root && !threadStarted && numGpus <= 9
    ensures r == Failure(NoGridSide) <==> numGpus > 9
  {
    match GridSide(numGpus)
    case None => Failure(NoGridSide)
    case Some(side) =>
      var height := CardSize(rows, side);
      var width := CardSize(cols, side);
      if height <= CardBuffer(v) then Failure(Rejection(v, threadStarted, TooSmallY))
      else if width <= CardBuffer(v) then Failure(Rejection(v, threadStarted, TooSmallX))
      else Success(Layout(side, height, width))
  }

  /**
   * A layout is accepted exactly when there are at most nine GPUs and both card sizes exceed the
   * card buffer; it then uses the smallest side that holds the GPUs, and its cards do not overlap
   * and end inside the terminal.
   */
  lemma LayoutAccepted(v: Variant, numGpus: int, rows: int, cols: int, threadStarted: bool)
    ensures var r := LayoutFor(v, numGpus, rows, cols, threadStarted);
      r.Success? <==> (numGpus <= 9 && var side := GridSide(numGpus).value;
        CardSize(rows, side) > CardBuffer(v) && CardSize(cols, side) > CardBuffer(v))
    ensures var r := LayoutFor(v, numGpus, rows, cols, threadStarted);
      r.Success? ==>
        var l := r.value;
        SmallestSide(numGpus, l.side) && l.height > CardBuffer(v) && l.width > CardBuffer(v)
        && l.height == CardSize(rows, l.side) && l.width == CardSize(cols, l.side)
        && var grid := Tiling(l.side, l.height, l.width);
        (forall i, j :: 0 <= i < l.side && 0 <= j < l.side ==> Inside(grid[i][j], rows, cols))
        && forall i, j, k, m ::
          0 <= i < l.side && 0 <= j < l.side && 0 <= k < l.side && 0 <= m < l.side && (i, j) != (k, m) ==>
          !Overlap(grid[i][j], grid[k][m])
  {
    GridSideIsSmallest(numGpus);
    if LayoutFor(v, numGpus, rows, cols, threadStarted).Success? {
      TilingTiles(rows, cols, GridSide(numGpus).value);
    }
  }

  /**
   * Y is checked before X: a card too short is reported as such whatever its width, and only the
   * root copy without a poll thread reports the failed `stop()` instead.
   */
  lemma LayoutChecksYFirst(v: Variant, numGpus: int, rows: int, cols: int, threadStarted: bool)
    requires GridSide(numGpus).Some? && GridSide(numGpus).value >= 1
    requires CardSize(rows, GridSide(numGpus).value) <= CardBuffer(v)
    ensures LayoutFor(v, numGpus, rows, cols, threadStarted)
      == Failure(if v == Root && !threadStarted then NoThreadToJoin else TooSmallY)
  {
  }

  /** The packaged copy reports the size it rejected whether or not a poll thread runs. */
  lemma PackagedRejectionIgnoresThread(numGpus: int, rows: int, cols: int)
    ensures LayoutFor(Packaged, numGpus, rows, cols, false) == LayoutFor(Packaged, numGpus, rows, cols, true)
  {
  }

  /** In the root copy, rejecting a terminal before `run` always ends in the failed `None.join`. */
  lemma RootRejectionWithoutThread(numGpus: int, rows: int, cols: int)
    requires numGpus <= 9
    requires LayoutFor(Root, numGpus, rows, cols, false).Failure?
    ensures LayoutFor(Root, numGpus, rows, cols, false) == Failure(NoThreadToJoin)
  {
    GridSideIsSmallest(numGpus);
  }

  /** The windows of the array, row by row. */
  function Flatten(grid: seq<seq<Rect>>): seq<Rect>
    decreases |grid|
  {
    if grid == [] then [] else Flatten(grid[..|grid| - 1]) + grid[|grid| - 1]
  }

  /** Every window of the array, and nothing else, is in its flattening. */
  lemma FlattenMembers(grid: seq<seq<Rect>>, r: Rect)
    ensures r in Flatten(grid) <==> exists i, j :: 0 <= i < |grid| && 0 <= j < |grid[i]| && grid[i][j] == r
  {
    if r in Flatten(grid) {
      var i, j := FlattenFrom(grid, r);
    }
    if exists i, j :: 0 <= i < |grid| && 0 <= j < |grid[i]| && grid[i][j] == r {
      var i, j :| 0 <= i < |grid| && 0 <= j < |grid[i]| && grid[i][j] == r;
      FlattenHas(grid, i, j);
    }
  }

  lemma {:induction false} FlattenHas(grid: seq<seq<Rect>>, i: int, j: int)
    requires 0 <= i < |grid| && 0 <= j < |grid[i]|
    ensures grid[i][j] in Flatten(grid)
    decreases |grid|
  {
    var n := |grid| - 1;
    assert Flatten(grid) == Flatten(grid[..n]) + grid[n];
    if i < n {
      assert grid[..n][i] == grid[i];
      FlattenHas(grid[..n], i, j);
    } else {
      assert grid[n][j] in grid[n];
    }
  }

  lemma {:induction false} FlattenFrom(grid: seq<seq<Rect>>, r: Rect) returns (i: int, j: int)
    requires r in Flatten(grid)
    ensures 0 <= i < |grid| && 0 <= j < |grid[i]| && grid[i][j] == r
    decreases |grid|
  {
    var n := |grid| - 1;
    assert Flatten(grid) == Flatten(grid[..n]) + grid[n];
    if r in Flatten(grid[..n]) {
      i, j := FlattenFrom(grid[..n], r);
      assert grid[..n][i] == grid[i];
    } else {
      i := n;
      j :| 0 <= j < |grid[n]| && grid[n][j] == r;
    }
  }

  /** A GPU's card exists in the window array. */
  predicate InGrid(card: (int, int), grid: seq<seq<Rect>>) {
    0 <= card.0 < |grid| && 0 <= card.1 < |grid[card.0]|
  }

  /** What one GPU's turn of a draw loop leaves on the screen. */
  datatype Paint =
    | GaugeCard(card: (int, int), header: string, gauges: CardGauges)
    | ProcessCard(card: (int, int), header: string, lines: map<int, string>)
    | Placeholder(card: (int, int))

  /** What a draw loop raises: a zero denominator in a percentage, or a GPU without a card (`IndexError`). */
  datatype DrawFault = ZeroDivision(id: int) | NoSuchCard(id: int)

  /**
   * One turn of `_draw_overwatch`: the percentages first (a zero total, limit or maximum raises),
   * then the window lookup, then the header and the four gauges sized to the window.
   */
  function OverwatchCard(v: Variant, id: int, props: GpuProps, side: int, grid: seq<seq<Rect>>, indent: int): Result<Paint, DrawFault>
    requires side >= 1
    requires v == Packaged ==> props.readings.utilization.Some?
  {
    var r := props.readings;
    var card := CardOf(id, side);
    if r.totalMem == 0 || r.powerLimit == 0 || r.maxTemp == 0 then Failure(ZeroDivision(id))
    else if !InGrid(card, grid) then Failure(NoSuchCard(id))
    else
      var window := grid[card.0][card.1];
      var utilization := if v == Packaged then r.utilization.value else 0;
      Success(GaugeCard(card, CardHeader(v, id, props.name, utilization), Gauges(v, r, window.width, indent).value))
  }

  /** The lines of a process card, keyed by pid. */
  function ProcessLines(processes: map<int, ProcInfo>): (lines: map<int, string>)
    ensures lines.Keys == processes.Keys
    ensures forall pid :: pid in lines ==> lines[pid] == ProcessLine(pid, processes[pid])
  {
    map pid | pid in processes :: ProcessLine(pid, processes[pid])
  }

  /**
   * Whether curses accepts every write of a process card: the header on row 1, one line per
   * process from row 2 on at the indent, each within the window.
   */
  predicate Fits(window: Rect, header: string, lines: map<int, string>, indent: int) {
    1 + |header| < window.width && 2 + |lines| < window.height
    && forall pid :: pid in lines ==> indent + |lines[pid]| < window.width
  }

  /**
   * One turn of `_draw_process`: the window lookup, then the header and one line per process,
   * or the "Expand terminal" placeholder when curses cannot write them.
   */
  function ProcessCardOf(id: int, props: GpuProps, side: int, grid: seq<seq<Rect>>, indent: int): Result<Paint, DrawFault>
    requires side >= 1
  {
    var card := CardOf(id, side);
    if !InGrid(card, grid) then Failure(NoSuchCard(id))
    else
      var window := grid[card.0][card.1];
      var header := PlainHeader(id, props.name);
      var lines := ProcessLines(props.processes);
      if Fits(window, header, lines, indent) then Success(ProcessCard(card, header, lines))
      else Success(Placeholder(card))
  }

  /**
   * An overwatch turn raises exactly when a denominator is zero or the GPU has no card, and a
   * zero denominator is reported first; otherwise it paints the gauges of the GPU's own readings,
   * sized to its own window.
   */
  lemma OverwatchCardOutcome(v: Variant, id: int, props: GpuProps, side: int, grid: seq<seq<Rect>>, indent: int)
    requires side >= 1
    requires v == Packaged ==> props.readings.utilization.Some?
    ensures var c, r := OverwatchCard(v, id, props, side, grid, indent), props.readings;
      (c.Failure? <==> r.totalMem == 0 || r.powerLimit == 0 || r.maxTemp == 0 || !InGrid(CardOf(id, side), grid))
      && (r.totalMem == 0 || r.powerLimit == 0 || r.maxTemp == 0 ==> c == Failure(ZeroDivision(id)))
    ensures var c, card := OverwatchCard(v, id, props, side, grid, indent), CardOf(id, side);
      c.Success? ==>
        c.value.GaugeCard? && c.value.card == card
        && Gauges(v, props.readings, grid[card.0][card.1].width, indent) == Some(c.value.gauges)
  {
  }

  /**
   * A process turn raises `IndexError` exactly when the GPU has no card; otherwise, in that card,
   * it writes the GPU's header and one line per process when curses accepts every write, and the
   * placeholder exactly when it does not.
   */
  lemma ProcessCardOutcome(id: int, props: GpuProps, side: int, grid: seq<seq<Rect>>, indent: int)
    requires side >= 1
    ensures var c := ProcessCardOf(id, props, side, grid, indent);
      (c.Failure? <==> !InGrid(CardOf(id, side), grid))
      && (c.Failure? ==> c.error == NoSuchCard(id))
    ensures var c, card := ProcessCardOf(id, props, side, grid, indent), CardOf(id, side);
      c.Success? ==>
        var header, lines := PlainHeader(id, props.name), ProcessLines(props.processes);
        c.value.card == card && (c.value.ProcessCard? || c.value.Placeholder?)
        && (c.value.ProcessCard? <==> Fits(grid[card.0][card.1], header, lines, indent))
        && (c.value.ProcessCard? ==> c.value.header == header && c.value.lines == lines)
  {
  }

  /** The overwatch turns for GPUs `0 .. |buffer| - 1`, the sorted keys of a dense buffer. */
  function OverwatchCards(v: Variant, buffer: map<nat, GpuProps>, side: int, grid: seq<seq<Rect>>, indent: int): (cards: seq<Result<Paint, DrawFault>>)
    requires side >= 1 && IsSnapshot(v, buffer)
    ensures |cards| == |buffer|
  {
    seq(|buffer|, id requires 0 <= id < |buffer| && IsSnapshot(v, buffer) && side >= 1 =>
      OverwatchCard(v, id, buffer[id], side, grid, indent))
  }

  function ProcessCards(v: Variant, buffer: map<nat, GpuProps>, side: int, grid: seq<seq<Rect>>, indent: int): (cards: seq<Result<Paint, DrawFault>>)
    requires side >= 1 && IsSnapshot(v, buffer)
    ensures |cards| == |buffer|
  {
    seq(|buffer|, id requires 0 <= id < |buffer| && IsSnapshot(v, buffer) && side >= 1 =>
      ProcessCardOf(id, buffer[id], side, grid, indent))
  }

  /** Everything `_draw_overwatch` paints, or what it raises; nothing while the buffer is empty. */
  function OverwatchPlan(v: Variant, buffer: Option<map<nat, GpuProps>>, side: int, grid: seq<seq<Rect>>, indent: int): (plan: Result<seq<Paint>, DrawFault>)
    requires side >= 1 && (buffer.Some? ==> IsSnapshot(v, buffer.value))
    ensures buffer.None? ==> plan == Success([])
    ensures buffer.Some? && plan.Success? ==> |plan.value| == |buffer.value|
  {
    if buffer.None? then Success([])
    else
      var cards := OverwatchCards(v, buffer.value, side, grid, indent);
      SequenceSucceeds(cards);
      Sequence(cards)
  }

  function ProcessPlan(v: Variant, buffer: Option<map<nat, GpuProps>>, side: int, grid: seq<seq<Rect>>, indent: int): (plan: Result<seq<Paint>, DrawFault>)
    requires side >= 1 && (buffer.Some? ==> IsSnapshot(v, buffer.value))
    ensures buffer.None? ==> plan == Success([])
    ensures buffer.Some? && plan.Success? ==> |plan.value| == |buffer.value|
  {
    if buffer.None? then Success([])
    else
      var cards := ProcessCards(v, buffer.value, side, grid, indent);
      SequenceSucceeds(cards);
      Sequence(cards)
  }

  /**
   * Drawing after a successful layout, when the buffer holds no more GPUs than the grid has
   * cards and no reading has a zero denominator: every GPU gets a gauge card, in its own card
   * of the grid, with four bars as wide as the card allows.
   */
  lemma OverwatchPlanLaidOut(v: Variant, buffer: map<nat, GpuProps>, side: int, height: int, width: int, indent: int)
    requires 1 <= side && IsSnapshot(v, buffer) && |buffer| <= side * side
    requires forall id :: id in buffer ==>
      buffer[id].readings.totalMem != 0 && buffer[id].readings.powerLimit != 0 && buffer[id].readings.maxTemp != 0
    ensures var plan := OverwatchPlan(v, Some(buffer), side, Tiling(side, height, width), indent);
      plan.Success? && |plan.value| == |buffer|
      && forall id :: 0 <= id < |buffer| ==> GaugesPainted(plan.value[id], v, id, buffer[id].readings, side, width, indent)
  {
    var cards := OverwatchCards(v, buffer, side, Tiling(side, height, width), indent);
    OverwatchCardsLaidOut(v, buffer, side, height, width, indent);
    SequenceSucceeds(cards);
  }

  /**
   * GPU `id`'s gauge card: in its own card of a `side x side` grid, with the gauges of its own
   * readings, four bars as wide as a card `width` columns wide allows.
   */
  predicate GaugesPainted(p: Paint, v: Variant, id: int, r: Readings, side: int, width: int, indent: int)
    requires side >= 1
  {
    p.GaugeCard? && p.card == CardOf(id, side) && 0 <= p.card.0 < side && 0 <= p.card.1 < side
    && Gauges(v, r, width, indent) == Some(p.gauges) && AllBars(p.gauges, width - indent - 4)
  }

  /** Every turn of the overwatch loop, under the same conditions, paints its GPU's gauge card. */
  lemma OverwatchCardsLaidOut(v: Variant, buffer: map<nat, GpuProps>, side: int, height: int, width: int, indent: int)
    requires 1 <= side && IsSnapshot(v, buffer) && |buffer| <= side * side
    requires forall id :: id in buffer ==>
      buffer[id].readings.totalMem != 0 && buffer[id].readings.powerLimit != 0 && buffer[id].readings.maxTemp != 0
    ensures var cards := OverwatchCards(v, buffer, side, Tiling(side, height, width), indent);
      forall id :: 0 <= id < |buffer| ==>
        cards[id].Success? && GaugesPainted(cards[id].value, v, id, buffer[id].readings, side, width, indent)
  {
    var cards := OverwatchCards(v, buffer, side, Tiling(side, height, width), indent);
    forall id | 0 <= id < |buffer|
      ensures cards[id].Success? && GaugesPainted(cards[id].value, v, id, buffer[id].readings, side, width, indent)
    {
      assert id in buffer;
      OverwatchCardLaidOut(v, id, buffer[id], side, height, width, indent);
    }
  }

  /** Every one of the four bars is `length` columns long. */
  predicate AllBars(g: CardGauges, length: int) {
    g.mem.bar.length == length && g.fan.bar.length == length
    && g.temp.bar.length == length && g.power.bar.length == length
  }

  /**
   * One GPU of the grid with nonzero denominators gets its gauge card, in its own card of the
   * grid: its header, and the gauges of its own readings, four bars as wide as the card allows.
   */
  lemma OverwatchCardLaidOut(v: Variant, id: int, props: GpuProps, side: int, height: int, width: int, indent: int)
    requires 1 <= side && 0 <= id < side * side
    requires v == Packaged ==> props.readings.utilization.Some?
    requires props.readings.totalMem != 0 && props.readings.powerLimit != 0 && props.readings.maxTemp != 0
    ensures var card := OverwatchCard(v, id, props, side, Tiling(side, height, width), indent);
      card.Success? && card.value.GaugeCard? && card.value.card == CardOf(id, side)
      && 0 <= CardOf(id, side).0 < side && 0 <= CardOf(id, side).1 < side
      && card.value.header == CardHeader(v, id, props.name, if v == Packaged then props.readings.utilization.value else 0)
      && card.value.gauges == Gauges(v, props.readings, width, indent).value
      && AllBars(card.value.gauges, width - indent - 4)
  {
    CardOfInRange(id, side * side, side);
  }

  /**
   * A GPU whose index reaches past the grid (a later poll found more GPUs than the layout was
   * made for) makes its draw turn raise `IndexError`.
   */
  lemma CardBeyondGridRaises(v: Variant, id: int, props: GpuProps, side: int, height: int, width: int, indent: int)
    requires 1 <= side && side * side <= id
    requires v == Packaged ==> props.readings.utilization.Some?
    requires props.readings.totalMem != 0 && props.readings.powerLimit != 0 && props.readings.maxTemp != 0
    ensures OverwatchCard(v, id, props, side, Tiling(side, height, width), indent) == Failure(NoSuchCard(id))
    ensures ProcessCardOf(id, props, side, Tiling(side, height, width), indent) == Failure(NoSuchCard(id))
  {
    CardOfBeyondGrid(id, side);
  }

  /**
   * When the buffer holds more GPUs than the grid has cards, and no reading has a zero
   * denominator, both draw loops raise `IndexError` at the first GPU past the grid.
   */
  lemma BufferBeyondGridRaises(v: Variant, buffer: map<nat, GpuProps>, side: int, height: int, width: int, indent: int)
    requires 1 <= side && IsSnapshot(v, buffer) && side * side < |buffer|
    requires forall id :: id in buffer ==>
      buffer[id].readings.totalMem != 0 && buffer[id].readings.powerLimit != 0 && buffer[id].readings.maxTemp != 0
    ensures OverwatchPlan(v, Some(buffer), side, Tiling(side, height, width), indent) == Failure(NoSuchCard(side * side))
    ensures ProcessPlan(v, Some(buffer), side, Tiling(side, height, width), indent) == Failure(NoSuchCard(side * side))
  {
    OverwatchBeyondGrid(v, buffer, side, height, width, indent);
    ProcessBeyondGrid(v, buffer, side, height, width, indent);
  }

  lemma OverwatchBeyondGrid(v: Variant, buffer: map<nat, GpuProps>, side: int, height: int, width: int, indent: int)
    requires 1 <= side && IsSnapshot(v, buffer) && side * side < |buffer|
    requires forall id :: id in buffer ==>
      buffer[id].readings.totalMem != 0 && buffer[id].readings.powerLimit != 0 && buffer[id].readings.maxTemp != 0
    ensures OverwatchPlan(v, Some(buffer), side, Tiling(side, height, width), indent) == Failure(NoSuchCard(side * side))
  {
    var grid := Tiling(side, height, width);
    var first := side * side;
    var cards := OverwatchCards(v, buffer, side, grid, indent);
    forall id | 0 <= id < first
      ensures cards[id].Success?
    {
      assert id in buffer;
      CardOfInRange(id, first, side);
      assert InGrid(CardOf(id, side), grid);
      assert cards[id] == OverwatchCard(v, id, buffer[id], side, grid, indent);
    }
    assert first in buffer;
    CardOfBeyondGrid(first, side);
    assert cards[first] == OverwatchCard(v, first, buffer[first], side, grid, indent);
    assert !InGrid(CardOf(first, side), grid);
    SequenceFirstFailure(cards, first);
  }

  lemma ProcessBeyondGrid(v: Variant, buffer: map<nat, GpuProps>, side: int, height: int, width: int, indent: int)
    requires 1 <= side && IsSnapshot(v, buffer) && side * side < |buffer|
    ensures ProcessPlan(v, Some(buffer), side, Tiling(side, height, width), indent) == Failure(NoSuchCard(side * side))
  {
    var grid := Tiling(side, height, width);
    var first := side * side;
    var cards := ProcessCards(v, buffer, side, grid, indent);
    forall id | 0 <= id < first
      ensures cards[id].Success?
    {
      assert id in buffer;
      ProcessCardLaidOut(id, buffer[id], side, height, width, indent);
    }
    assert first in buffer;
    CardOfBeyondGrid(first, side);
    assert cards[first] == ProcessCardOf(first, buffer[first], side, grid, indent);
    assert !InGrid(CardOf(first, side), grid);
    SequenceFirstFailure(cards, first);
  }

  /** A record with a zero memory total, power limit or maximum temperature stops the overwatch drawing. */
  lemma ZeroDenominatorRaises(v: Variant, buffer: map<nat, GpuProps>, side: int, grid: seq<seq<Rect>>, indent: int, id: nat)
    requires 1 <= side && IsSnapshot(v, buffer) && id in buffer
    requires buffer[id].readings.totalMem == 0 || buffer[id].readings.powerLimit == 0 || buffer[id].readings.maxTemp == 0
    ensures OverwatchPlan(v, Some(buffer), side, grid, indent).Failure?
  {
    var cards := OverwatchCards(v, buffer, side, grid, indent);
    assert cards[id].Failure?;
    SequenceSucceeds(cards);
  }

  /**
   * GPU `id`'s process turn: in its own card of a `side x side` grid of `height x width` cards,
   * its header and the line of each of its processes when they fit that window, and the
   * placeholder exactly when they do not.
   */
  predicate ProcessPainted(p: Paint, id: int, props: GpuProps, side: int, height: int, width: int, indent: int)
    requires side >= 1
  {
    var card := CardOf(id, side);
    var window := Rect(card.0 * height, card.1 * width, height, width);
    var header, lines := PlainHeader(id, props.name), ProcessLines(props.processes);
    p.card == card && 0 <= card.0 < side && (p.ProcessCard? || p.Placeholder?)
    && (p.ProcessCard? <==> Fits(window, header, lines, indent))
    && (p.ProcessCard? ==> p.header == header && p.lines == lines)
  }

  /** After a successful layout, every GPU the grid holds gets its process card or the placeholder, in its own card. */
  lemma ProcessPlanLaidOut(v: Variant, buffer: map<nat, GpuProps>, side: int, height: int, width: int, indent: int)
    requires 1 <= side && IsSnapshot(v, buffer) && |buffer| <= side * side
    ensures var plan := ProcessPlan(v, Some(buffer), side, Tiling(side, height, width), indent);
      plan.Success? && |plan.value| == |buffer|
      && forall id :: 0 <= id < |buffer| ==> ProcessPainted(plan.value[id], id, buffer[id], side, height, width, indent)
  {
    var cards := ProcessCards(v, buffer, side, Tiling(side, height, width), indent);
    ProcessCardsLaidOut(v, buffer, side, height, width, indent);
    SequenceSucceeds(cards);
  }

  /** Every turn of the process loop, under the same conditions, paints its GPU's process card or the placeholder. */
  lemma ProcessCardsLaidOut(v: Variant, buffer: map<nat, GpuProps>, side: int, height: int, width: int, indent: int)
    requires 1 <= side && IsSnapshot(v, buffer) && |buffer| <= side * side
    ensures var cards := ProcessCards(v, buffer, side, Tiling(side, height, width), indent);
      forall id :: 0 <= id < |buffer| ==>
        cards[id].Success? && ProcessPainted(cards[id].value, id, buffer[id], side, height, width, indent)
  {
    var cards := ProcessCards(v, buffer, side, Tiling(side, height, width), indent);
    forall id | 0 <= id < |buffer|
      ensures cards[id].Success? && ProcessPainted(cards[id].value, id, buffer[id], side, height, width, indent)
    {
      assert id in buffer;
      ProcessCardLaidOut(id, buffer[id], side, height, width, indent);
    }
  }

  /** One GPU of the grid gets its process card or the placeholder, in its own card of the grid. */
  lemma ProcessCardLaidOut(id: int, props: GpuProps, side: int, height: int, width: int, indent: int)
    requires 1 <= side && 0 <= id < side * side
    ensures var card := ProcessCardOf(id, props, side, Tiling(side, height, width), indent);
      card.Success? && ProcessPainted(card.value, id, props, side, height, width, indent)
  {
    CardOfInRange(id, side * side, side);
  }

  /** The `FrontEnd` object. */
  class FrontEnd {
    const tracker: Tracker
    const indent: int
    var pollThread: ThreadState
    var currentView: View
    var rows: int
    var cols: int
    var winRows: int
    var windowArray: seq<seq<Rect>>

    /** The tracker's buffer is a dense snapshot and a grid side has been chosen. */
    ghost predicate Valid()
      reads this, tracker
    {
      tracker.Valid() && indent == 4 && 1 <= winRows <= 3
    }

    /** The window array is the tiling for the current terminal size and grid side. */
    ghost predicate LaidOut()
      reads this
    {
      winRows >= 1 && windowArray == Tiling(winRows, CardSize(rows, winRows), CardSize(cols, winRows))
    }

    /** The fields `__init__` sets before it lays the cards out. */
    constructor (tracker: Tracker, rows: int, cols: int)
      ensures this.tracker == tracker && indent == 4
      ensures pollThread == NoThread && currentView == Overwatch
      ensures this.rows == rows && this.cols == cols && winRows == 0 && windowArray == []
    {
      this.tracker := tracker;
      pollThread := NoThread;
      indent := 4;
      currentView := Overwatch;
      this.rows := rows;
      this.cols := cols;
      winRows := 0;
      windowArray := [];
    }

    /** `__init__`: the fields, then the first layout, which may raise. */
    static method Create(tracker: Tracker, rows: int, cols: int) returns (r: Result<FrontEnd, FrontEndFault>)
      requires tracker.Valid()
      ensures var layout := LayoutFor(tracker.variant, tracker.numGpus, rows, cols, false);
        (r.Success? <==> layout.Success?) && (r.Failure? ==> r.error == layout.error)
      ensures r.Success? ==>
        fresh(r.value) && r.value.Valid() && r.value.LaidOut()
        && r.value.winRows == GridSide(tracker.numGpus).value
        && r.value.tracker == tracker && r.value.rows == rows && r.value.cols == cols
        && r.value.currentView == Overwatch && r.value.pollThread == NoThread
    {
      var frontEnd := new FrontEnd(tracker, rows, cols);
      var outcome := frontEnd.Resize(rows, cols);
      if outcome.Fail? {
        return Failure(outcome.error);
      }
      return Success(frontEnd);
    }

    /** `resize`: record the new terminal size, then lay the cards out again. */
    method Resize(rows: int, cols: int) returns (outcome: Outcome<FrontEndFault>)
      requires tracker.Valid() && indent == 4
      modifies this
      ensures this.rows == rows && this.cols == cols
      ensures var layout := LayoutFor(tracker.variant, tracker.numGpus, rows, cols, old(pollThread) != NoThread);
        (outcome.Pass? <==> layout.Success?) && (outcome.Fail? ==> outcome.error == layout.error)
      ensures outcome.Pass? ==> Valid() && LaidOut()
      ensures old(Valid()) ==> Valid()
      ensures outcome.Fail? ==> windowArray == old(windowArray)
      ensures winRows == (if GridSide(tracker.numGpus).Some? then GridSide(tracker.numGpus).value else old(winRows))
      ensures pollThread == (if outcome.Fail? && outcome.error != NoGridSide && old(pollThread) != NoThread then Joined else old(pollThread))
      ensures currentView == old(currentView)
    {
      this.rows, this.cols := rows, cols;
      outcome := InitializeGpuWindows();
    }

    /**
     * `_initialize_gpu_windows`. The grid side is stored before the size checks, so a rejected
     * terminal leaves `rows`, `cols` and `win_rows` updated but the old window array in place;
     * on a size rejection a running poll thread is joined.
     */
    method InitializeGpuWindows() returns (outcome: Outcome<FrontEndFault>)
      requires tracker.Valid() && indent == 4
      modifies this
      ensures var layout := LayoutFor(tracker.variant, tracker.numGpus, rows, cols, old(pollThread) != NoThread);
        (outcome.Pass? <==> layout.Success?) && (outcome.Fail? ==> outcome.error == layout.error)
        && (layout.Success? ==>
          winRows == layout.value.side && windowArray == Tiling(layout.value.side, layout.value.height, layout.value.width))
      ensures outcome.Pass? ==> Valid() && LaidOut()
      ensures old(Valid()) ==> Valid()
      ensures outcome.Fail? ==> windowArray == old(windowArray)
      ensures winRows == (if GridSide(tracker.numGpus).Some? then GridSide(tracker.numGpus).value else old(winRows))
      ensures pollThread == (if outcome.Fail? && outcome.error != NoGridSide && old(pollThread) != NoThread then Joined else old(pollThread))
      ensures rows == old(rows) && cols == old(cols) && currentView == old(currentView)
    {
      var v := tracker.variant;
      GridSideIsSmallest(tracker.numGpus);
      var side := GridSide(tracker.numGpus);
      if side.None? {
        return Fail(NoGridSide);
      }
      winRows := side.value;
      var height := CardSize(rows, winRows);
      var width := CardSize(cols, winRows);
      if height <= CardBuffer(v) {
        outcome := Reject(TooSmallY);
        return;
      }
      if width <= CardBuffer(v) {
        outcome := Reject(TooSmallX);
        return;
      }
      windowArray := Tiling(winRows, height, width);
      return Pass;
    }

    /** The `stop()` call before a "too small" error: guarded by `poll_thread != None` in the packaged copy only. */
    method Reject(fault: FrontEndFault) returns (outcome: Outcome<FrontEndFault>)
      modifies this
      ensures outcome == Fail(Rejection(tracker.variant, old(pollThread) != NoThread, fault))
      ensures pollThread == (if old(pollThread) != NoThread then Joined else NoThread)
      ensures rows == old(rows) && cols == old(cols) && winRows == old(winRows)
      ensures windowArray == old(windowArray) && currentView == old(currentView)
    {
      if tracker.variant == Packaged {
        if pollThread != NoThread {
          var _ := Stop();
        }
        return Fail(fault);
      }
      var stopped := Stop();
      if stopped.Fail? {
        return Fail(stopped.error);
      }
      return Fail(fault);
    }

    /** `run`: start a new poll thread. */
    method Run()
      modifies this
      ensures pollThread == Running
      ensures rows == old(rows) && cols == old(cols) && winRows == old(winRows)
      ensures windowArray == old(windowArray) && currentView == old(currentView)
    {
      pollThread := Running;
    }

    /** `stop`: join the poll thread; with none, `None.join` raises. */
    method Stop() returns (outcome: Outcome<FrontEndFault>)
      modifies this
      ensures old(pollThread) == NoThread ==> outcome == Fail(NoThreadToJoin) && pollThread == NoThread
      ensures old(pollThread) != NoThread ==> outcome == Pass && pollThread == Joined
      ensures rows == old(rows) && cols == old(cols) && winRows == old(winRows)
      ensures windowArray == old(windowArray) && currentView == old(currentView)
    {
      if pollThread == NoThread {
        return Fail(NoThreadToJoin);
      }
      pollThread := Joined;
      return Pass;
    }

    /** `clear_array`: every window is cleared and re-bordered, row by row; returns the windows in that order. */
    method ClearArray() returns (cleared: seq<Rect>)
      ensures cleared == Flatten(windowArray)
    {
      cleared := [];
      var i := 0;
      while i < |windowArray|
        invariant 0 <= i <= |windowArray|
        invariant cleared == Flatten(windowArray[..i])
      {
        var row := windowArray[i];
        var j := 0;
        while j < |row|
          invariant 0 <= j <= |row|
          invariant cleared == Flatten(windowArray[..i]) + row[..j]
        {
          assert row[..j + 1] == row[..j] + [row[j]];
          cleared := cleared + [row[j]];
          j := j + 1;
        }
        assert row[..j] == row;
        assert windowArray[..i + 1][..i] == windowArray[..i];
        i := i + 1;
      }
      assert windowArray[..i] == windowArray;
    }

    /** `_swap_view`: flip the view and clear every window. */
    method SwapView() returns (cleared: seq<Rect>)
      modifies this
      ensures currentView == Swapped(old(currentView))
      ensures cleared == Flatten(windowArray)
      ensures rows == old(rows) && cols == old(cols) && winRows == old(winRows)
      ensures windowArray == old(windowArray) && pollThread == old(pollThread)
    {
      if currentView == Overwatch {
        currentView := ProcessView;
        cleared := ClearArray();
      } else {
        currentView := Overwatch;
        cleared := ClearArray();
      }
    }

    /** `_draw_overwatch`: one turn per GPU of the buffer, in index order, stopping at the first that raises. */
    method DrawOverwatch() returns (r: Result<seq<Paint>, DrawFault>)
      requires Valid()
      ensures r == OverwatchPlan(tracker.variant, tracker.propsBuffer, winRows, windowArray, indent)
    {
      var buffer := tracker.propsBuffer;
      if buffer.None? {
        return Success([]);
      }
      var props := buffer.value;
      ghost var cards := OverwatchCards(tracker.variant, props, winRows, windowArray, indent);
      var paints: seq<Paint> := [];
      var id := 0;
      while id < |props|
        invariant 0 <= id <= |props|
        invariant Sequence(cards[..id]) == Success(paints)
      {
        assert cards[..id + 1][..id] == cards[..id];
        assert id in props;
        var paint := OverwatchCard(tracker.variant, id, props[id], winRows, windowArray, indent);
        if paint.Failure? {
          SequenceFailureSticks(cards, id + 1);
          return Failure(paint.error);
        }
        paints := paints + [paint.value];
        id := id + 1;
      }
      assert cards[..id] == cards;
      return Success(paints);
    }

    /** `_draw_process`: one turn per GPU of the buffer, in index order, stopping at the first that raises. */
    method DrawProcess() returns (r: Result<seq<Paint>, DrawFault>)
      requires Valid()
      ensures r == ProcessPlan(tracker.variant, tracker.propsBuffer, winRows, windowArray, indent)
    {
      var buffer := tracker.propsBuffer;
      if buffer.None? {
        return Success([]);
      }
      var props := buffer.value;
      ghost var cards := ProcessCards(tracker.variant, props, winRows, windowArray, indent);
      var paints: seq<Paint> := [];
      var id := 0;
      while id < |props|
        invariant 0 <= id <= |props|
        invariant Sequence(cards[..id]) == Success(paints)
      {
        assert cards[..id + 1][..id] == cards[..id];
        assert id in props;
        var paint := ProcessCardOf(id, props[id], winRows, windowArray, indent);
        if paint.Failure? {
          SequenceFailureSticks(cards, id + 1);
          return Failure(paint.error);
        }
        paints := paints + [paint.value];
        id := id + 1;
      }
      assert cards[..id] == cards;
      return Success(paints);
    }

    /** `draw`: the routine of the current view. */
    method Draw() returns (r: Result<seq<Paint>, DrawFault>)
      requires Valid()
      ensures currentView == Overwatch ==> r == OverwatchPlan(tracker.variant, tracker.propsBuffer, winRows, windowArray, indent)
      ensures currentView == ProcessView ==> r == ProcessPlan(tracker.variant, tracker.propsBuffer, winRows, windowArray, indent)
    {
      if currentView == Overwatch {
        r := DrawOverwatch();
      } else {
        r := DrawProcess();
      }
    }
  }
}
