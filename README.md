# gpu-array, modelled in Dafny

gpu-array is a curses dashboard for NVIDIA GPUs. It has two parts:

- A `Tracker` polls `nvidia-smi -q -x`. It parses every `gpu` node of the XML report into a
  dictionary of readings and processes, asking `ps` for each process's user, command and
  elapsed time. It keeps the latest result as `props_buffer`, keyed `0..n-1`.
- A `FrontEnd` cuts the terminal into a G x G grid of cards, G being 1, 2 or 3. It draws each
  GPU either as four coloured gauges (the "overwatch" view) or as a list of its processes (the
  "process" view).

The repository carries two copies of this code: the packaged one under `gpu_array/` and an
older one at the top level. The model covers both through one parameter,
`Variant = Packaged | Root`. The two copies differ in five ways:

- the minimum card size (10 or 11);
- whether the poll reads the utilization at all (only the packaged copy parses it);
- whether a "too small" rejection stops the poll thread only when one exists;
- whether the gauge labels carry units and the overwatch header shows the utilization;
- whether a malformed `ps` row is skipped or makes the whole poll raise.

Modules, in dependency order:

- `Wrappers` (wrappers.dfy): `Option`, `Result` and `Outcome` for Python's `None` and
  exceptions. `Sequence` runs steps in order and stops at the first that raises.
- `Tokens` (tokens.dfy): the string rules the parser relies on. `split(" ")[0]` is
  `FirstToken`, `split("/")[-1]` is `LastComponent`, `split()` is `Words`, and
  `" ".join` is `Unwords`.
- `Numerals` (numerals.dfy): `str()` of an integer, `int()` and `float()` of a numeral, and the
  `{:03}` format.
- `Snapshot` (snapshot.dfy): the record `parse_gpu_props` builds. It has the scalar fields, a
  process table filled by a loop (`ParseProcesses`), and `GpuPropsOf` for a whole `gpu` node.
- `Query` (query.dfy): the buffer comprehension `BufferOf` and the `Tracker` class with `Poll`
  and construction.
- `Grid` (grid.dfy): how the grid side is chosen, the card size, the window array
  (`Tiling`), and the card a GPU is drawn in.
- `Gauge` (gauge.dfy): `_determine_color`, the `int(100 * used / total)` percentages,
  `draw_bar`'s geometry, and the label, header and process-line strings.
- `Tui` (tui.dfy): the `FrontEnd` class. It covers layout acceptance, resize, run/stop, view
  swapping, `clear_array`, and the two draw loops.

Drawing is modelled as the plan of what each loop turn would paint (`Paint`), not as terminal
output. A curses window is a `Rect(top, left, height, width)`.

Where the code and its documentation disagree, the model follows the code:

- The colour of exactly 33 is pair 3 (red), not the middle band.
- A process line shows the executable name taken from the path, not the `ps` command.
- The root copy's rejection of a small terminal fails on `None.join` when no poll thread was
  started.
- Nothing keeps a later poll's GPU count equal to the count fixed at construction.
  `Tui.BufferBeyondGridRaises` shows what a larger count does to drawing.

## Model

| member | source | states |
|---|---|---|
| Wrappers.SequenceSucceeds | gpu_array/tui.py:204-205 | a loop over the GPUs succeeds exactly when every turn does, and then yields each turn's result in index order |
| Wrappers.SequenceFailureSticks | gpu_array/tui.py:233-234 | once a turn raises, the turns after it do not change the outcome |
| Wrappers.SequenceFirstFailure | gpu_array/tui.py:233-236 | when every turn before turn `k` succeeds and turn `k` raises, the loop raises exactly turn `k`'s error |
| Tokens.Split | gpu_array/query.py:101 | `str.split(sep)` yields at least one part, no part contains the separator, and joining the parts with it gives the text back |
| Tokens.SplitJoin | gpu_array/query.py:101 | splitting a join of separator-free parts gives those parts back |
| Tokens.FirstToken | gpu_array/query.py:47-52 | `split(" ")[0]` is the prefix of the text up to the first space (or all of it), and contains no space |
| Tokens.LastComponent | gpu_array/query.py:101 | `split("/")[-1]` is a suffix without `/`, preceded by `/` unless it is the whole text |
| Tokens.PathRoundTrip | query.py:75 | the last component of `dir + "/" + name` is `name` for every directory |
| Tokens.Words | gpu_array/query.py:110 | every word `str.split()` yields is non-empty and free of whitespace |
| Tokens.WordsEmpty | gpu_array/query.py:110 | `str.split()` yields no words exactly when the text is all whitespace |
| Tokens.WordsSkipsBlanks | gpu_array/query.py:110 | leading whitespace does not change what `str.split()` yields |
| Tokens.WordsSeparated | gpu_array/query.py:110 | a token followed by any non-empty run of blanks is the first word, and the rest splits on its own |
| Tokens.WordsSpaced | gpu_array/query.py:110-111 | `str.split()` of tokens separated by any non-empty runs of blanks, with any blanks before the first and after the last, gives the tokens back |
| Numerals.NatToString | gpu_array/tui.py:238-242 | `str(n)` of a natural is a non-empty run of digits, without a leading zero, whose value is `n` |
| Numerals.IntToString | gpu_array/tui.py:238-242 | `str(n)` is one token without space, `/` or `.`, starting with `-` or a digit and ending with a digit |
| Numerals.StripUnpadded | gpu_array/query.py:100 | the whitespace `int()` strips leaves a text without surrounding blanks unchanged |
| Numerals.ParseInt | gpu_array/query.py:100 | `int()` of an empty or all-blank text raises |
| Numerals.ParseReading | gpu_array/query.py:64-69 | `float()` of an empty or all-blank text raises |
| Numerals.ParseIntShow | gpu_array/query.py:100 | `int(str(n)) == n` for every integer |
| Numerals.ParseReadingShow | gpu_array/query.py:64-69 | `float()` of the numeral of a non-negative number, with or without a fraction, has that number as its whole part |
| Numerals.ZeroPad | gpu_array/tui.py:289 | zero padding reaches the width, keeps only digits and keeps the value |
| Numerals.Padded3 | gpu_array/tui.py:289 | `{:03}` is at least three characters wide, and for a non-negative number it is digits whose value is the number |
| Numerals.Padded3Show | gpu_array/tui.py:289 | `{:03}` is at least three characters wide and `int()` reads the number back |
| Snapshot.Measure | gpu_array/query.py:47-52 | an integer field that does not parse raises with its first space-separated token; an empty text or one starting with a space always raises |
| Snapshot.Reading | gpu_array/query.py:64-69 | a float field that does not parse raises with its first space-separated token; an empty text or one starting with a space always raises |
| Snapshot.FirstTokenOfReported | gpu_array/query.py:51 | the first space-separated token of `"<n> <unit>"` is the numeral of `n` |
| Snapshot.MeasureShow | gpu_array/query.py:47-62 | an integer field written as `"<n> <unit>"` parses to `n` |
| Snapshot.ReadingShow | gpu_array/query.py:64-88 | a float field written as `"<n> <unit>"` for a non-negative `n` parses to `n` |
| Snapshot.ProcessRow | gpu_array/query.py:100-102 | a process node's row parses exactly when its pid and its memory do; an unparsable pid is reported first; the row holds that pid, the last path component and that memory |
| Snapshot.PsFields | gpu_array/query.py:110-111 | the `ps` columns exist exactly when the output splits into three words, and they are those words in order |
| Snapshot.PsRowAccepted | gpu_array/query.py:110-111 | a `ps` row of three columns, separated by any runs of blanks and padded by any blanks, is accepted with user, command and elapsed time in that order |
| Snapshot.AddProcess | gpu_array/query.py:99-119 | one node's step raises exactly when the node faults, and with that fault; otherwise it keeps every pid already in the table |
| Snapshot.ProcessTableSize | gpu_array/query.py:97-119 | the table never has more entries than there were process nodes |
| Snapshot.ProcessTableFailureSticks | query.py:73-88 | once a process node raises, the nodes after it do not change the outcome |
| Snapshot.ProcessTableFaults | gpu_array/query.py:99-113 | the process loop succeeds exactly when no node faults, and otherwise reports the first faulty node's error |
| Snapshot.ProcessTableKeys | gpu_array/query.py:114 | the table holds a pid exactly when some accepted node has that pid |
| Snapshot.ProcessTableEntries | gpu_array/query.py:114-119 | the entry under a pid is built from the last node accepted under it, so a later duplicate pid overwrites an earlier one |
| Snapshot.SkippedProcessIsInvisible | gpu_array/query.py:110-113 | in the packaged copy, a node whose `ps` row is not three tokens leaves the result exactly as if the node were absent |
| Snapshot.RootRejectsShortPsRow | query.py:82 | in the root copy, such a node makes the whole parse raise |
| Snapshot.ReadNodesFailureSticks | gpu_array/query.py:97-121 | a fault raised within the first `k` process nodes is the fault of the whole loop |
| Snapshot.AddNode | gpu_array/query.py:100-119 | one turn of the loop, with its `continue`, computes exactly that node's step |
| Snapshot.ParseProcesses | gpu_array/query.py:97-121 | the loop with its `continue` builds exactly the process table, or raises the first fault |
| Snapshot.FieldParses | query.py:25-69 | the root copy reads seven scalar fields, and the packaged copy reads an eighth, the utilization |
| Snapshot.FirstFault | gpu_array/query.py:44-95 | the scalar fields are read in order: none raises exactly when all parse, and otherwise the first that fails is reported |
| Snapshot.AssembleReadings | gpu_array/query.py:44-95 | the readings exist exactly when every field parses, and otherwise the first fault is reported; each reading comes from its own field (total and used memory, fan, temperature and its maximum, power draw and its limit, and the utilization only in the packaged copy) |
| Snapshot.GpuPropsOf | gpu_array/query.py:42-123 | a parsed record carries a utilization exactly in the packaged copy |
| Snapshot.FieldParsesReported | gpu_array/query.py:47-95 | numbers written as `"<n> <unit>"` parse back field by field to the numbers written |
| Snapshot.AssembleParsedFields | gpu_array/query.py:42-95 | the readings assembled from the parses of a record's own numbers are that record |
| Snapshot.GpuPropsOfReported | gpu_array/query.py:42-123 | a `gpu` node whose fields were written from some readings (temperatures and powers non-negative) parses to exactly those readings, with its name and its process table |
| Snapshot.ParseGpuProps | gpu_array/query.py:42-123 | the scalar fields and then the process loop give the record `GpuPropsOf` describes, or its first fault |
| Query.CollectSucceeds | gpu_array/query.py:157 | collecting the parsed records succeeds exactly when every record parsed |
| Query.CollectKeys | gpu_array/query.py:157 | a successful collection has exactly the keys `0..n-1` |
| Query.CollectContents | gpu_array/query.py:157 | a successful collection maps each index to the record parsed there |
| Query.CollectFirstFault | gpu_array/query.py:157 | a failed collection reports the fault of the first record that failed |
| Query.BufferOf | gpu_array/query.py:156-157 | a successful comprehension holds one record per `gpu` node |
| Query.BufferOfSucceeds | gpu_array/query.py:156-157 | the comprehension succeeds exactly when every `gpu` node parses |
| Query.BufferOfKeys | query.py:111-112 | a successful comprehension has one key per `gpu` node, exactly `0..n-1` |
| Query.BufferOfRecords | gpu_array/query.py:157 | key `k` holds the record parsed from the `k`-th `gpu` node in document order |
| Query.BufferOfFirstFault | gpu_array/query.py:157 | a failed comprehension reports the fault of the first node that does not parse |
| Query.BufferIsSnapshot | gpu_array/query.py:156-158 | every successful poll leaves a dense buffer of `n` records, with a utilization exactly in the packaged copy |
| Query.Tracker.constructor | gpu_array/query.py:142-146 | before its first poll a tracker has the given polling rate, no buffer and no file name |
| Query.Tracker.Poll | gpu_array/query.py:150-158 | a poll replaces the buffer wholesale with the new comprehension, or raises and leaves the old buffer; the GPU count, rate and file name are unchanged |
| Query.Tracker.Create | query.py:101-107 | construction polls exactly once and succeeds exactly when that poll does; the GPU count is the number of `gpu` nodes in the first buffer |
| Grid.Candidates | gpu_array/tui.py:145-146 | the candidates are exactly the `(diff, index)` pairs with a non-negative difference |
| Grid.MinPair | gpu_array/tui.py:146 | `min` over a non-empty sequence of pairs is one of them, and no other pair is smaller in Python's tuple order |
| Grid.CandidatesOfDiffs | gpu_array/tui.py:144-146 | the candidates are the squares 1, 4 and 9 that hold the GPUs, each paired with its index, in order |
| Grid.GridSide | gpu_array/tui.py:144-148 | there is a side exactly for at most nine GPUs; it is 1, 2 or 3 and its square holds all of them |
| Grid.GridSideIsSmallest | gpu_array/tui.py:144-149 | a side exists exactly for at most nine GPUs, and it is the smallest of 1..3 whose square holds them all |
| Grid.CardSize | gpu_array/tui.py:150-151 | `extent // side - 1` is the largest card size for which `side` cards, each followed by one spare line, fit into the extent |
| Grid.Tiling | gpu_array/tui.py:164-170 | the window array has `side` rows of `side` windows each, and card `(i, j)` is the `height x width` window whose corner is at row `i * height`, column `j * width` |
| Grid.TilingTiles | gpu_array/tui.py:150-170 | with sizes derived from the terminal, every card ends inside `rows x cols`, and no two distinct cards overlap |
| Grid.CardOf | gpu_array/tui.py:206-207 | `(id // G, id % G)` recovers `id` as `row * G + col`, with the column in `0..G-1` |
| Grid.CardOfInRange | gpu_array/tui.py:235-236 | for every id below a GPU count of at most `G * G`, both card indices lie in `0..G-1` |
| Grid.CardOfInjective | tui.py:149-150 | distinct GPUs are drawn in distinct cards |
| Grid.CardOfBeyondGrid | gpu_array/tui.py:206-208 | a GPU with index at least `G * G` has a row index past the grid |
| Grid.ThreeGpuExample | gpu_array/tui.py:144-170 | three GPUs on a 40 x 120 terminal give a 2 x 2 grid of 19 x 59 cards, with GPU 2 at the bottom left |
| Gauge.ColorPair | gpu_array/tui.py:192-197 | the colour is always pair 1, 2 or 3; pair 1 exactly below 33, pair 2 exactly strictly between 33 and 66 |
| Gauge.ColorPairMonotone | gpu_array/tui.py:192-197 | away from 33, a larger value never gets a milder colour |
| Gauge.ColorPairQuirk | tui.py:136-141 | 32 is green, 33 is red, 34 is yellow again, and 66 is red |
| Gauge.TruncDivFloor | gpu_array/tui.py:257-277 | `int(a / b)` is floor division for a non-negative numerator and a positive denominator |
| Gauge.TruncDivOdd | gpu_array/tui.py:257-263 | `int(a / b)` rounds toward zero, so it is odd in the numerator |
| Gauge.Percent | gpu_array/tui.py:257-277 | a percentage raises `ZeroDivisionError` exactly when its denominator is zero |
| Gauge.PercentBounds | gpu_array/tui.py:257-277 | a share of a positive total is the floor of `100 * used / total`, between 0 and 100, and 100 for the whole |
| Gauge.PercentExample | gpu_array/tui.py:257-283 | half of 8192 MiB is 50 % (yellow), and a third is 33 % (red) |
| Gauge.DrawBar | gpu_array/tui.py:333-342 | the filled and unfilled segments add up to the bar length, `[` is at `x`, and `]` is at `x + length`, that is at `size_x - 4` |
| Gauge.BarFill | gpu_array/tui.py:334-336 | for a percentage in 0..100 the filled segment is the floor of that share of the bar: empty at 0, full at 100 |
| Gauge.BarMonotone | gpu_array/tui.py:335 | a larger percentage never fills less of the same bar |
| Gauge.RatioLabelWords | gpu_array/tui.py:238-255 | a memory, temperature or power label splits into the label, `a/b` and, in the packaged copy only, the unit |
| Gauge.RatioLabelReadsBack | tui.py:176-193 | a ratio label's first word is its name, and its `a/b` word gives both numbers back, in both copies |
| Gauge.LabelsReadBack | gpu_array/tui.py:238-255 | the memory, temperature and power labels are named `Mem`, `Tmp` and `Pwr` and give back their two numbers; the fan label is `Fan`, the speed and `%` |
| Gauge.FanLabelReadsBack | gpu_array/tui.py:243-245 | the fan label is three words, and the speed reads back from the middle one |
| Gauge.CardHeader | gpu_array/tui.py:286-294 | an overwatch header starts with the GPU's index and name in both copies |
| Gauge.HeaderUtilization | gpu_array/tui.py:289-293 | the packaged header ends with the utilization, zero-padded to three digits and followed by `%)`, and the number reads back |
| Gauge.ProcessLine | gpu_array/tui.py:218-224 | with whitespace-free user, name and elapsed time, a process line splits into `user:`, the pid, the name, the elapsed time and the memory |
| Gauge.ProcessLineWords | gpu_array/tui.py:218-224 | a process line splits into `user:`, the pid, the name, the elapsed time and the memory |
| Gauge.ProcessLineReadsBack | gpu_array/tui.py:216-225 | a process line has five words, and its pid and memory read back as numbers |
| Gauge.Gauges | gpu_array/tui.py:257-315 | the four gauges exist exactly when the memory total, power limit and maximum temperature are nonzero, and each bar is `width - indent - 4` long |
| Gauge.PercentBelow | gpu_array/tui.py:257-283 | a share is below a threshold `k` exactly when `100 * used < k * total`, which is how the colour bands read on the raw numbers |
| Gauge.ShareGauge | gpu_array/tui.py:280-301 | a gauge built from a share is green exactly when it is below 33 % of the total and yellow exactly from 34 % up to, but not including, 66 %, and its bar is drawn from that share |
| Gauge.GaugesShowReadings | gpu_array/tui.py:238-315 | each of the four gauges carries its own reading's label, and its colour and bar come from its own share (memory, temperature and power) or from the fan speed |
| Gauge.GaugesFit | gpu_array/tui.py:295-315 | with readings within their limits and a fan speed within 0..100, every bar's fill lies within the bar and its `]` inside the card |
| Tui.CardBuffer | gpu_array/tui.py:80-81 | the minimum card size is 10 in the packaged copy and 11 in the root copy |
| Tui.LayoutFor | gpu_array/tui.py:144-162 | an accepted layout has a side of 1..3 whose square holds the GPUs and cards larger than the card buffer; the grid-side failure happens exactly for more than nine GPUs; `None.join` happens only in the root copy without a thread |
| Tui.Swapped | gpu_array/tui.py:120-129 | swapping always changes the view |
| Tui.SwappedTwice | tui.py:83-91 | swapping twice restores the view |
| Tui.LayoutAccepted | gpu_array/tui.py:138-170 | a layout is accepted exactly for at most nine GPUs and cards larger than the card buffer in both dimensions; it then uses the smallest side, its cards end inside the terminal, and no two overlap |
| Tui.LayoutChecksYFirst | gpu_array/tui.py:153-162 | a card too short is reported as too small in Y whatever its width |
| Tui.PackagedRejectionIgnoresThread | gpu_array/tui.py:155-161 | the packaged copy reports the same rejection whether or not a poll thread runs |
| Tui.RootRejectionWithoutThread | tui.py:111-118 | the root copy rejecting a terminal before `run` always fails on `None.join` instead |
| Tui.FlattenMembers | gpu_array/tui.py:113-118 | the windows `clear_array` visits are exactly the windows of the array |
| Tui.ProcessLines | gpu_array/tui.py:209-225 | a process card has one line per pid of the record, each the process line of that pid |
| Tui.OverwatchCardOutcome | gpu_array/tui.py:234-294 | an overwatch turn raises exactly when a denominator is zero (reported first, as `ZeroDivisionError`) or the GPU has no card; otherwise it paints, in the GPU's card, the gauges of its own readings sized to its window |
| Tui.ProcessCardOutcome | gpu_array/tui.py:205-227 | a process turn raises `IndexError` exactly when the GPU has no card; otherwise, in that card, it writes the GPU's plain header and the process line of each of its pids exactly when they fit the window, and the placeholder exactly when they do not |
| Tui.OverwatchPlan | gpu_array/tui.py:229-234 | nothing is painted without a buffer; a finished loop painted one card per GPU |
| Tui.ProcessPlan | gpu_array/tui.py:200-205 | nothing is painted without a buffer; a finished loop painted one card per GPU |
| Tui.OverwatchCardLaidOut | gpu_array/tui.py:234-315 | a GPU within the grid with nonzero denominators gets a gauge card in its own card, with its header, the gauges of its own readings, and all four bars `width - indent - 4` long |
| Tui.OverwatchCardsLaidOut | gpu_array/tui.py:233-315 | under the same conditions, every turn of the overwatch loop paints its own GPU's gauge card |
| Tui.OverwatchPlanLaidOut | gpu_array/tui.py:229-315 | after a successful layout, every GPU gets its gauge card, in index order and in its own card, with the gauges of its own readings and all four bars `width - indent - 4` long |
| Tui.CardBeyondGridRaises | gpu_array/tui.py:206-208 | the turn of a GPU beyond the grid raises `IndexError` in both draw loops |
| Tui.BufferBeyondGridRaises | gpu_array/tui.py:200-236 | with more GPUs than cards, both draw loops raise `IndexError` for the first GPU past the grid |
| Tui.OverwatchBeyondGrid | gpu_array/tui.py:233-236 | the overwatch loop runs the turns inside the grid and raises at the first GPU past it |
| Tui.ProcessBeyondGrid | gpu_array/tui.py:204-208 | the process loop runs the turns inside the grid and raises at the first GPU past it |
| Tui.ZeroDenominatorRaises | gpu_array/tui.py:257-277 | a record with a zero memory total, power limit or maximum temperature makes the overwatch drawing raise |
| Tui.ProcessCardLaidOut | gpu_array/tui.py:205-227 | a GPU within the grid gets, in its own `height x width` window, its plain header and the process line of each of its pids when they fit that window, and the placeholder exactly when they do not |
| Tui.ProcessPlanLaidOut | gpu_array/tui.py:200-227 | after a successful layout the loop finishes, and every GPU gets, in index order and in its own window, its plain header and process lines when they fit, and the placeholder exactly when they do not |
| Tui.ProcessCardsLaidOut | gpu_array/tui.py:204-227 | under the same conditions, every turn of the process loop paints its own GPU's header and process lines, or the placeholder exactly when they do not fit |
| Tui.FrontEnd.constructor | gpu_array/tui.py:83-87 | a front end starts without a poll thread, in the overwatch view, with the given terminal size |
| Tui.FrontEnd.Create | gpu_array/tui.py:83-88 | construction succeeds exactly when the first layout is accepted; the front end then has the chosen grid side and the tiling for the terminal, in the overwatch view, without a poll thread |
| Tui.FrontEnd.Resize | gpu_array/tui.py:90-102 | the terminal size is always recorded; the grid side is stored whenever one exists, even for a rejected terminal; the new layout is accepted exactly as `LayoutFor` says, and the view is unchanged |
| Tui.FrontEnd.InitializeGpuWindows | gpu_array/tui.py:138-175 | the grid side is stored before the size checks; a rejected terminal keeps the old window array and joins a running poll thread; an accepted one gets the tiling |
| Tui.FrontEnd.Reject | tui.py:111-118 | before raising "too small", the packaged copy stops only an existing thread, while the root copy's `stop()` fails first when there is none |
| Tui.FrontEnd.Run | gpu_array/tui.py:104-107 | `run` starts a poll thread and changes nothing else |
| Tui.FrontEnd.Stop | gpu_array/tui.py:109-111 | `stop` joins the poll thread, and raises when there is none |
| Tui.FrontEnd.ClearArray | gpu_array/tui.py:113-118 | every window is cleared row by row, in the order of the window array |
| Tui.FrontEnd.SwapView | gpu_array/tui.py:120-129 | the view flips and every window is cleared; nothing else changes |
| Tui.FrontEnd.DrawOverwatch | gpu_array/tui.py:229-315 | the loop paints exactly the overwatch plan of the current buffer, stopping at the first GPU that raises; nothing is drawn without a buffer |
| Tui.FrontEnd.DrawProcess | gpu_array/tui.py:200-227 | the loop paints exactly the process plan of the current buffer, stopping at the first GPU that raises |
| Tui.FrontEnd.Draw | gpu_array/tui.py:131-136 | `draw` runs the routine of the current view |

## Left out

- All terminal I/O is left out: `curses_init`, `newwin`, `border`, `scrollok`, `addstr`, `clear`, `refresh`, `refresh_array` and `endwin`. Windows are rectangles, and a draw loop returns what it would paint.
- `PollThread` and its `Event`, `sleep` and join are left out because they are threading. Only whether a thread exists, runs or was joined is kept.
- The `nvidia-smi` and `ps` subprocesses and the minidom navigation are left out because they are foreign calls. The model starts from the texts of the XML nodes and from `ps`'s output.
- Temperatures and powers are kept as their whole part, not as floats. Percentages are `int(100 * used / total)` on whole numbers, and a bar's fill is `int(length * percent / 100)`. So float rounding (Python gives 28 for `int(100 * (29 / 100))`), fractions in the powers, and a fractional limit below 1 (zero here) are not reproduced.
- `int()` accepting underscores and non-ASCII digits is not modelled, nor `float()` accepting exponents, `inf` and `nan`.
- The order of a process card's lines (dict insertion order) is left out; the lines are a map from pid to text.
- Tui.Fits: whether curses accepts a process card's writes depends on the terminal, so an approximate rule (header and lines within the window) stands in for the `try`/`except`. The placeholder's own write failing is not modelled.
- Tui.FrontEnd.DrawOverwatch: curses writes past the edge of a window (a long header, a label wider than the card) are not modelled as raising. Neither are the partial draws a raising turn leaves on screen.
- Gauge.DrawBar: only the segment lengths and the bracket columns are modelled, not the overlapping offsets at which the filled and unfilled runs are written.
- Query.Tracker.Create: the root copy's `method` and `filename` arguments have no effect and are not parameters; the query object is replaced by the `gpu` nodes of its report.
- `gpu_array/scripts/__main__.py` is not part of this model: it is entry-point wiring only, and so is the key-handling main loop. `setup.py` is packaging.
