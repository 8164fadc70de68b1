/**
 * The arithmetic and text of one overwatch card: the severity colour of a value, the
 * `int(100 * used / total)` percentages, the geometry of a `[####    ]` bar, and the label
 * and header strings.
 */
module Gauge {
  import opened Wrappers
  import opened Tokens
  import opened Numerals
  import opened Snapshot

  /**
   * `_determine_color`: pair 1 (green) below 33, pair 2 (yellow) strictly between 33 and 66,
   * pair 3 (red) otherwise, so exactly 33 is red.
   */
  function ColorPair(val: int): (pair: int)
    ensures 1 <= pair <= 3
    ensures pair == 1 <==> val < 33
    ensures pair == 2 <==> 33 < val < 66
  {
    if val < 33 then 1
    else if val > 33 && val < 66 then 2
    else 3
  }

  /** Away from 33 the colour never falls as the value rises; at 33 it jumps to red and falls back to yellow at 34. */
  lemma ColorPairMonotone(a: int, b: int)
    requires a <= b && a != 33 && b != 33
    ensures ColorPair(a) <= ColorPair(b)
  {
  }

  lemma ColorPairQuirk()
    ensures ColorPair(32) == 1 && ColorPair(33) == 3 && ColorPair(34) == 2 && ColorPair(66) == 3
  {
  }

  function Abs(a: int): nat {
    if a < 0 then -a else a
  }

  /** Python's `int(a / b)`: the quotient rounded toward zero (Dafny's `/` rounds toward negative infinity for positive divisors). */
  function TruncDiv(a: int, b: int): int
    requires b != 0
  {
    var q := Abs(a) / Abs(b);
    if (a < 0) != (b < 0) then -q else q
  }

  lemma DivBounds(x: int, y: int)
    requires y > 0
    ensures (x / y) * y <= x < (x / y) * y + y
  {
  }

  lemma DivAtMost(x: int, y: int, k: int)
    requires y > 0 && x < (k + 1) * y
    ensures x / y <= k
  {
    var q := x / y;
    DivBounds(x, y);
    if k < q {
      MulMonotone(k + 1, q, y);
    }
  }

  lemma DivAtLeast(x: int, y: int, k: int)
    requires y > 0 && k * y <= x
    ensures k <= x / y
  {
    var q := x / y;
    DivBounds(x, y);
    if q < k {
      MulMonotone(q + 1, k, y);
    }
  }

  lemma MulMonotone(a: int, b: int, y: int)
    requires a <= b && y > 0
    ensures a * y <= b * y
  {
    assert b * y == a * y + (b - a) * y;
  }

  /** For a non-negative numerator and a positive denominator, rounding toward zero is floor division. */
  lemma TruncDivFloor(a: int, b: int)
    requires a >= 0 && b > 0
    ensures TruncDiv(a, b) == a / b
    ensures TruncDiv(a, b) * b <= a < (TruncDiv(a, b) + 1) * b
  {
    DivBounds(a, b);
  }

  /** Rounding toward zero is symmetric in the sign of the numerator, unlike floor division. */
  lemma TruncDivOdd(a: int, b: int)
    requires b != 0
    ensures TruncDiv(-a, b) == -TruncDiv(a, b)
  {
    assert Abs(-a) == Abs(a);
    if a == 0 {
      assert -a == a;
    }
  }

  /** `int(100 * (used / total))`; `None` where the division raises `ZeroDivisionError`. */
  function Percent(used: int, total: int): (p: Option<int>)
    ensures p.None? <==> total == 0
  {
    if total == 0 then None else Some(TruncDiv(100 * used, total))
  }

  /** A share of a positive total is a percentage between 0 and 100, and the whole is 100. */
  lemma PercentBounds(used: int, total: int)
    requires 0 <= used <= total && total > 0
    ensures Percent(used, total).Some?
    ensures 0 <= Percent(used, total).value <= 100
    ensures used == total ==> Percent(used, total).value == 100
    ensures Percent(used, total).value * total <= 100 * used < (Percent(used, total).value + 1) * total
  {
    TruncDivFloor(100 * used, total);
    DivAtLeast(100 * used, total, 0);
    DivAtMost(100 * used, total, 100);
    if used == total {
      DivAtLeast(100 * used, total, 100);
    }
  }

  /** Half of an 8 GiB card in use reads 50 %, which is yellow. */
  lemma PercentExample()
    ensures Percent(4096, 8192) == Some(50) && ColorPair(50) == 2
    ensures Percent(1, 3) == Some(33) && ColorPair(33) == 3
  {
  }

  /**
   * What `draw_bar` computes before it writes: the bar length, the filled and unfilled
   * segment lengths, and the columns of `[` and `]`.
   */
  datatype BarLayout = BarLayout(length: int, filled: int, unfilled: int, open: int, close: int)

  /** `draw_bar` in a window `sizeX` columns wide, starting at column `x`. */
  function DrawBar(sizeX: int, x: int, percent: int): (bar: BarLayout)
    ensures bar.filled + bar.unfilled == bar.length
    ensures bar.open == x && bar.close == x + bar.length && bar.close == sizeX - 4
  {
    var length := sizeX - x - 4;
    var filled := TruncDiv(length * percent, 100);
    BarLayout(length, filled, length - filled, x, x + filled + (length - filled))
  }

  /**
   * For a percentage in 0..100 the filled part is the floor of that share of the bar: never
   * negative, never longer than the bar, empty at 0 and full at 100.
   */
  lemma BarFill(sizeX: int, x: int, percent: int)
    requires 0 <= percent <= 100 && sizeX - x - 4 >= 0
    ensures var bar := DrawBar(sizeX, x, percent);
      0 <= bar.filled <= bar.length && 0 <= bar.unfilled
      && bar.filled * 100 <= bar.length * percent < (bar.filled + 1) * 100
      && (percent == 0 ==> bar.filled == 0)
      && (percent == 100 ==> bar.filled == bar.length)
  {
    var length := sizeX - x - 4;
    assert 0 <= length * percent <= length * 100 by {
      assert length * (100 - percent) >= 0;
    }
    TruncDivFloor(length * percent, 100);
    DivAtLeast(length * percent, 100, 0);
    DivAtMost(length * percent, 100, length);
    if percent == 100 {
      DivAtLeast(length * percent, 100, length);
    }
  }

  /** A larger percentage never fills less of the same bar. */
  lemma BarMonotone(sizeX: int, x: int, p: int, q: int)
    requires 0 <= p <= q && sizeX - x - 4 >= 0
    ensures DrawBar(sizeX, x, p).filled <= DrawBar(sizeX, x, q).filled
  {
    var length := sizeX - x - 4;
    assert 0 <= length * p <= length * q by {
      assert length * (q - p) >= 0;
    }
    TruncDivFloor(length * p, 100);
    TruncDivFloor(length * q, 100);
    DivBounds(length * p, 100);
    DivAtLeast(length * q, 100, (length * p) / 100);
  }

  /** The unit after a ratio label: `" MiB"`, `" C"` or `" W"` in the packaged copy, nothing in the root copy. */
  function UnitSuffix(v: Variant, unit: string): string {
    if v == Packaged then " " + unit else ""
  }

  /** `"{}{}/{}".format(label, a, b)`, with the label's trailing space, followed by the unit. */
  function RatioLabel(name: string, a: int, b: int, suffix: string): string {
    name + " " + IntToString(a) + "/" + IntToString(b) + suffix
  }

  /** The memory label: `"Mem used/total"`, with `" MiB"` in the packaged copy. */
  function MemLabel(v: Variant, used: int, total: int): string
  {
    RatioLabel("Mem", used, total, UnitSuffix(v, "MiB"))
  }

  /** The temperature label: `"Tmp temp/max"`, with `" C"` in the packaged copy. */
  function TempLabel(v: Variant, temp: int, maxTemp: int): string
  {
    RatioLabel("Tmp", temp, maxTemp, UnitSuffix(v, "C"))
  }

  /** The power label: `"Pwr used/limit"`, with `" W"` in the packaged copy. */
  function PowerLabel(v: Variant, used: int, limit: int): string
  {
    RatioLabel("Pwr", used, limit, UnitSuffix(v, "W"))
  }

  /** The fan label carries its `" %"` in both copies; it is three words, the middle one the fan speed. */
  function FanLabel(fan: int): string
  {
    "Fan " + IntToString(fan) + " %"
  }

  lemma FanWords(fan: int)
    ensures Words("Fan " + IntToString(fan) + " %") == ["Fan", IntToString(fan), "%"]
  {
    var ws := ["Fan", IntToString(fan), "%"];
    assert Unwords(ws[1..]) == IntToString(fan) + " " + "%";
    ConcatAssoc("Fan", " ", IntToString(fan));
    SpaceAssoc("Fan", IntToString(fan), "%");
    assert Unwords(ws) == "Fan " + IntToString(fan) + " %";
    WordsOfUnwords(ws);
  }

  /** A label whose first word is `name` and whose second, split at `/`, reads back as `a` and `b`. */
  predicate ShowsRatio(text: string, name: string, a: int, b: int) {
    var words := Words(text);
    |words| >= 2 && words[0] == name
    && var parts := Split(words[1], '/');
    |parts| == 2 && ParseInt(parts[0]) == Some(a) && ParseInt(parts[1]) == Some(b)
  }

  /** `"{}/{}".format(a, b)` is one token, and splitting it at `/` gives the two numerals back. */
  lemma SlashedToken(a: int, b: int)
    ensures IsToken(IntToString(a) + "/" + IntToString(b))
  {
    var slash := "/";
    assert IsToken(slash);
    TokenConcat(IntToString(a), slash);
    TokenConcat(IntToString(a) + slash, IntToString(b));
  }

  lemma SlashedSplits(a: int, b: int)
    ensures Split(IntToString(a) + "/" + IntToString(b), '/') == [IntToString(a), IntToString(b)]
  {
    var sa, sb := IntToString(a), IntToString(b);
    SplitConcat(sa, '/', sb);
    SplitNoSeparator(sa, '/');
    SplitNoSeparator(sb, '/');
    assert sa + "/" + sb == sa + ['/'] + sb;
  }

  /** A ratio label is two or three words: the name, `a/b`, and the unit where there is one. */
  lemma RatioLabelWords(name: string, a: int, b: int, v: Variant, unit: string)
    requires IsToken(name) && IsToken(unit)
    ensures Words(RatioLabel(name, a, b, UnitSuffix(v, unit)))
      == [name, IntToString(a) + "/" + IntToString(b)] + (if v == Packaged then [unit] else [])
  {
    var sa, sb := IntToString(a), IntToString(b);
    var ab := sa + "/" + sb;
    SlashedToken(a, b);
    var text := RatioLabel(name, a, b, UnitSuffix(v, unit));
    var ws := [name, ab] + (if v == Packaged then [unit] else []);
    ConcatAssoc(name + " ", sa, "/");
    ConcatAssoc(name + " ", sa + "/", sb);
    assert text == name + " " + ab + UnitSuffix(v, unit);
    if v == Packaged {
      ConcatAssoc(name + " " + ab, " ", unit);
      SpaceAssoc(name, ab, unit);
      assert Unwords(ws[1..]) == ab + " " + unit;
    } else {
      assert name + " " + ab + "" == name + " " + ab;
      assert Unwords(ws[1..]) == ab;
    }
    WordsOfUnwords(ws);
  }

  /**
   * A ratio label reads back: its second word, split at `/`, gives the two numbers, whatever
   * the unit after it (so for the memory, temperature and power labels of both copies).
   */
  lemma RatioLabelReadsBack(name: string, a: int, b: int, v: Variant, unit: string)
    requires IsToken(name) && IsToken(unit)
    ensures ShowsRatio(RatioLabel(name, a, b, UnitSuffix(v, unit)), name, a, b)
  {
    RatioLabelWords(name, a, b, v, unit);
    SlashedSplits(a, b);
    ParseIntShow(a);
    ParseIntShow(b);
  }

  /** The fan speed reads back from the fan label. */
  lemma FanLabelReadsBack(fan: int)
    ensures var words := Words(FanLabel(fan)); |words| == 3 && ParseInt(words[1]) == Some(fan)
  {
    FanWords(fan);
    ParseIntShow(fan);
  }

  /**
   * Every gauge label reads back: the memory, temperature and power labels as their name and
   * the two numbers of the ratio, the fan label as three words, the middle one the fan speed.
   */
  lemma LabelsReadBack(v: Variant, r: Readings)
    ensures ShowsRatio(MemLabel(v, r.usedMem, r.totalMem), "Mem", r.usedMem, r.totalMem)
    ensures ShowsRatio(TempLabel(v, r.temp, r.maxTemp), "Tmp", r.temp, r.maxTemp)
    ensures ShowsRatio(PowerLabel(v, r.usedPower, r.powerLimit), "Pwr", r.usedPower, r.powerLimit)
    ensures Words(FanLabel(r.fan)) == ["Fan", IntToString(r.fan), "%"]
  {
    var mem, tmp, pwr := "Mem", "Tmp", "Pwr";
    var mib, c, w := "MiB", "C", "W";
    assert IsToken(mem) && IsToken(tmp) && IsToken(pwr) && IsToken(mib) && IsToken(c) && IsToken(w);
    RatioLabelReadsBack(mem, r.usedMem, r.totalMem, v, mib);
    RatioLabelReadsBack(tmp, r.temp, r.maxTemp, v, c);
    RatioLabelReadsBack(pwr, r.usedPower, r.powerLimit, v, w);
    FanWords(r.fan);
  }

  /** `" {}: {} ".format(gpu_id, name)`: the first line of a process card, and of a root overwatch card. */
  function PlainHeader(id: int, name: string): string {
    " " + IntToString(id) + ": " + name + " "
  }

  /**
   * The first line of an overwatch card: `" {id}: {name} ({:03}%)"` with the utilization in the
   * packaged copy; both copies start with the GPU's index and name.
   */
  function CardHeader(v: Variant, id: int, name: string, utilization: int): (header: string)
    ensures " " + IntToString(id) + ": " + name <= header
  {
    if v == Packaged then " " + IntToString(id) + ": " + name + " (" + Padded3(utilization) + "%)"
    else PlainHeader(id, name)
  }

  /** The utilization in a packaged header is at least three characters wide and reads back as the number. */
  lemma HeaderUtilization(id: int, name: string, utilization: int)
    ensures var header := CardHeader(Packaged, id, name, utilization);
      var lead := " " + IntToString(id) + ": " + name + " (";
      header[..|lead|] == lead && |header| >= |lead| + 5
      && ParseInt(header[|lead|..|header| - 2]) == Some(utilization)
      && header[|header| - 2..] == "%)"
  {
    var lead := " " + IntToString(id) + ": " + name + " (";
    var header := CardHeader(Packaged, id, name, utilization);
    assert header == lead + Padded3(utilization) + "%)";
    assert header[|lead|..|header| - 2] == Padded3(utilization);
    Padded3Show(utilization);
  }

  /**
   * `"{}: {} {} {} {}".format(user, pid, name, lifetime, mem)`: one line of a process card. When
   * the texts it shows are single tokens, it splits back into its five fields.
   */
  function ProcessLine(pid: int, p: ProcInfo): (line: string)
    ensures IsToken(p.user) && IsToken(p.name) && IsToken(p.lifetime) ==>
      Words(line) == [p.user + ":", IntToString(pid), p.name, p.lifetime, IntToString(p.mem)]
  {
    var line := p.user + ": " + IntToString(pid) + " " + p.name + " " + p.lifetime + " " + IntToString(p.mem);
    if IsToken(p.user) && IsToken(p.name) && IsToken(p.lifetime) then
      ProcessLineWords(pid, p);
      line
    else line
  }

  lemma ProcessLineUnwords(pid: int, p: ProcInfo, ws: seq<string>)
    requires ws == [p.user + ":", IntToString(pid), p.name, p.lifetime, IntToString(p.mem)]
    ensures Unwords(ws) == p.user + ": " + IntToString(pid) + " " + p.name + " " + p.lifetime + " " + IntToString(p.mem)
  {
    var sp, sm := IntToString(pid), IntToString(p.mem);
    var t3 := p.lifetime + " " + sm;
    var t2 := p.name + " " + t3;
    assert Unwords(ws[3..]) == t3;
    assert Unwords(ws[2..]) == t2;
    assert Unwords(ws[1..]) == sp + " " + t2;
    var q := p.user + ": " + sp;
    SpaceAssoc(q + " " + p.name, p.lifetime, sm);
    SpaceAssoc(q, p.name, t3);
    ConcatAssoc(p.user, ":", " ");
    SpaceAssoc(p.user + ":", sp, t2);
  }

  lemma ProcessLineWords(pid: int, p: ProcInfo)
    requires IsToken(p.user) && IsToken(p.name) && IsToken(p.lifetime)
    ensures Words(p.user + ": " + IntToString(pid) + " " + p.name + " " + p.lifetime + " " + IntToString(p.mem))
      == [p.user + ":", IntToString(pid), p.name, p.lifetime, IntToString(p.mem)]
  {
    var colon := ":";
    assert IsToken(colon);
    TokenConcat(p.user, colon);
    var ws := [p.user + colon, IntToString(pid), p.name, p.lifetime, IntToString(p.mem)];
    ProcessLineUnwords(pid, p, ws);
    WordsOfUnwords(ws);
  }

  /** The pid and the memory of a process line read back as numbers. */
  lemma ProcessLineReadsBack(pid: int, p: ProcInfo)
    requires IsToken(p.user) && IsToken(p.name) && IsToken(p.lifetime)
    ensures |Words(ProcessLine(pid, p))| == 5
    ensures ParseInt(Words(ProcessLine(pid, p))[1]) == Some(pid)
    ensures ParseInt(Words(ProcessLine(pid, p))[4]) == Some(p.mem)
  {
    var words := Words(ProcessLine(pid, p));
    assert words == [p.user + ":", IntToString(pid), p.name, p.lifetime, IntToString(p.mem)];
    assert words[1] == IntToString(pid) && words[4] == IntToString(p.mem);
    ParseIntShow(pid);
    ParseIntShow(p.mem);
  }

  /** One label line of an overwatch card, in its colour, with the bar drawn under it. */
  datatype GaugeLine = GaugeLine(text: string, pair: int, bar: BarLayout)

  /** The four gauges of an overwatch card, top to bottom. */
  datatype CardGauges = CardGauges(mem: GaugeLine, fan: GaugeLine, temp: GaugeLine, power: GaugeLine)

  /** A bar whose filled part lies within it and whose `]` lies inside a window `width` columns wide. */
  predicate BarFits(bar: BarLayout, width: int) {
    0 <= bar.filled <= bar.length && bar.close < width
  }

  /**
   * The gauges of an overwatch card in a card `width` columns wide, or `None` where one of the
   * three divisions raises. Every bar is `width - indent - 4` columns long.
   */
  function Gauges(v: Variant, r: Readings, width: int, indent: int): (gauges: Option<CardGauges>)
    ensures gauges.Some? <==> r.totalMem != 0 && r.powerLimit != 0 && r.maxTemp != 0
    ensures gauges.Some? ==>
      var g := gauges.value;
      var length := width - indent - 4;
      g.mem.bar.length == length && g.fan.bar.length == length
      && g.temp.bar.length == length && g.power.bar.length == length
  {
    var memFrac :- Percent(r.usedMem, r.totalMem);
    var powerFrac :- Percent(r.usedPower, r.powerLimit);
    var tempFrac :- Percent(r.temp, r.maxTemp);
    var fanFrac := r.fan;
    Some(CardGauges(
      GaugeLine(MemLabel(v, r.usedMem, r.totalMem), ColorPair(memFrac), DrawBar(width, indent, memFrac)),
      GaugeLine(FanLabel(fanFrac), ColorPair(fanFrac), DrawBar(width, indent, fanFrac)),
      GaugeLine(TempLabel(v, r.temp, r.maxTemp), ColorPair(tempFrac), DrawBar(width, indent, tempFrac)),
      GaugeLine(PowerLabel(v, r.usedPower, r.powerLimit), ColorPair(powerFrac), DrawBar(width, indent, powerFrac))))
  }

  /**
   * When every reading is within its limit and the card is wide enough for a bar, every bar
   * is filled within its length and closes inside the card.
   */
  lemma GaugesFit(v: Variant, r: Readings, width: int, indent: int)
    requires 0 <= r.usedMem <= r.totalMem && 0 < r.totalMem
    requires 0 <= r.usedPower <= r.powerLimit && 0 < r.powerLimit
    requires 0 <= r.temp <= r.maxTemp && 0 < r.maxTemp
    requires 0 <= r.fan <= 100
    requires width - indent - 4 >= 0
    ensures Gauges(v, r, width, indent).Some?
    ensures var g := Gauges(v, r, width, indent).value;
      BarFits(g.mem.bar, width) && BarFits(g.fan.bar, width)
      && BarFits(g.temp.bar, width) && BarFits(g.power.bar, width)
  {
    PercentBounds(r.usedMem, r.totalMem);
    PercentBounds(r.usedPower, r.powerLimit);
    PercentBounds(r.temp, r.maxTemp);
    BarFill(width, indent, Percent(r.usedMem, r.totalMem).value);
    BarFill(width, indent, r.fan);
    BarFill(width, indent, Percent(r.temp, r.maxTemp).value);
    BarFill(width, indent, Percent(r.usedPower, r.powerLimit).value);
  }

  /** A share of a positive total is below `k` percent exactly when `100 * used < k * total`, whatever the sign of `used`. */
  lemma PercentBelow(used: int, total: int, k: int)
    requires 0 < total && 1 <= k
    ensures Percent(used, total).value < k <==> 100 * used < k * total
  {
    if used < 0 {
      assert Percent(used, total).value <= 0;
      assert 100 * used < 0 <= k * total;
    } else {
      TruncDivFloor(100 * used, total);
      if 100 * used < k * total {
        DivAtMost(100 * used, total, k - 1);
      } else {
        DivAtLeast(100 * used, total, k);
      }
    }
  }

  /**
   * A gauge that shows `used` of a positive `total`: green below a third, yellow from 34 % to
   * 65 %, red at exactly 33 % and from 66 % up, with its bar filled to that percentage.
   */
  predicate ShowsShare(g: GaugeLine, used: int, total: int, width: int, indent: int)
    requires total > 0
  {
    (g.pair == 1 <==> 100 * used < 33 * total)
    && (g.pair == 2 <==> 34 * total <= 100 * used < 66 * total)
    && g.bar == DrawBar(width, indent, Percent(used, total).value)
  }

  /** The colour and bar of a gauge drawn from the percentage of `used` in `total`. */
  lemma ShareGauge(text: string, used: int, total: int, width: int, indent: int)
    requires total > 0
    ensures var p := Percent(used, total).value;
      ShowsShare(GaugeLine(text, ColorPair(p), DrawBar(width, indent, p)), used, total, width, indent)
  {
    PercentBelow(used, total, 33);
    PercentBelow(used, total, 34);
    PercentBelow(used, total, 66);
  }

  /**
   * Each gauge shows its own reading: memory used of the total, the fan speed as a percentage,
   * the temperature of its maximum and the power drawn of its limit, each under its own label.
   */
  lemma GaugesShowReadings(v: Variant, r: Readings, width: int, indent: int)
    requires 0 < r.totalMem && 0 < r.powerLimit && 0 < r.maxTemp
    ensures Gauges(v, r, width, indent).Some?
    ensures var g := Gauges(v, r, width, indent).value;
      g.mem.text == MemLabel(v, r.usedMem, r.totalMem) && ShowsShare(g.mem, r.usedMem, r.totalMem, width, indent)
      && g.temp.text == TempLabel(v, r.temp, r.maxTemp) && ShowsShare(g.temp, r.temp, r.maxTemp, width, indent)
      && g.power.text == PowerLabel(v, r.usedPower, r.powerLimit) && ShowsShare(g.power, r.usedPower, r.powerLimit, width, indent)
    ensures var g := Gauges(v, r, width, indent).value;
      g.fan.text == FanLabel(r.fan) && (g.fan.pair == 1 <==> r.fan < 33) && (g.fan.pair == 2 <==> 33 < r.fan < 66)
      && g.fan.bar == DrawBar(width, indent, r.fan)
  {
    ShareGauge(MemLabel(v, r.usedMem, r.totalMem), r.usedMem, r.totalMem, width, indent);
    ShareGauge(TempLabel(v, r.temp, r.maxTemp), r.temp, r.maxTemp, width, indent);
    ShareGauge(PowerLabel(v, r.usedPower, r.powerLimit), r.usedPower, r.powerLimit, width, indent);
  }
}
