/**
 * One GPU's telemetry record, as `GPUQuery.parse_gpu_props` builds it from the texts of an
 * nvidia-smi XML `gpu` node and from what `ps` prints for each of its processes.
 */
module Snapshot {
  import opened Wrappers
  import opened Tokens
  import opened Numerals

  /** The two copies of the program: the packaged `gpu_array/` one and the older root one. */
  datatype Variant = Packaged | Root

  /** One running process: executable name, memory (MiB), and the `ps` user, elapsed time and command. */
  datatype ProcInfo = ProcInfo(name: string, mem: int, user: string, lifetime: string, command: string)

  /**
   * The numeric fields of a record. Temperatures and powers are kept as their whole part;
   * `utilization` is absent (`None`) in the root copy, which never reads it.
   */
  datatype Readings = Readings(
    totalMem: int, usedMem: int, fan: int,
    temp: int, maxTemp: int, usedPower: int, powerLimit: int,
    utilization: Option<int>)

  /** The dictionary `parse_gpu_props` returns; processes are keyed by pid. */
  datatype GpuProps = GpuProps(name: string, readings: Readings, processes: map<int, ProcInfo>)

  /** The texts of one `process_info` node, with the standard output of `ps` for its pid. */
  datatype RawProcess = RawProcess(pidText: string, pathText: string, memText: string, psOutput: string)

  /** The texts of one `gpu` node, in the order the parser reads them. */
  datatype RawGpu = RawGpu(
    productName: string,
    totalMemText: string, usedMemText: string, fanText: string,
    tempText: string, maxTempText: string, usedPowerText: string, powerLimitText: string,
    utilizationText: string,
    processNodes: seq<RawProcess>)

  /** The `ValueError`s parsing can raise: a text that is not a number, a `ps` row that does not unpack. */
  datatype Fault = BadNumber(text: string) | BadPsOutput(output: string)

  function IntField(text: string): Result<int, Fault> {
    match ParseInt(text)
    case Some(n) => Success(n)
    case None => Failure(BadNumber(text))
  }

  /** An integer field as nvidia-smi writes it (`"8192 MiB"`): the first space-separated token. */
  function Measure(text: string): (r: Result<int, Fault>)
    ensures r.Failure? ==> r.error == BadNumber(FirstToken(text))
    ensures text == [] || text[0] == ' ' ==> r.Failure?
  {
    IntField(FirstToken(text))
  }

  /** A float field (`"65 C"`, `"120.50 W"`): the first space-separated token, whole part kept. */
  function Reading(text: string): (r: Result<int, Fault>)
    ensures r.Failure? ==> r.error == BadNumber(FirstToken(text))
    ensures text == [] || text[0] == ' ' ==> r.Failure?
  {
    var token := FirstToken(text);
    match ParseReading(token)
    case Some(n) => Success(n)
    case None => Failure(BadNumber(token))
  }

  /** How nvidia-smi writes a number with its unit. */
  function Reported(n: int, unit: string): string {
    IntToString(n) + " " + unit
  }

  lemma FirstTokenOfReported(n: int, unit: string)
    ensures FirstToken(Reported(n, unit)) == IntToString(n)
  {
    SplitConcat(IntToString(n), ' ', unit);
    SplitNoSeparator(IntToString(n), ' ');
    assert Reported(n, unit) == IntToString(n) + [' '] + unit;
  }

  /** `int("8192 MiB".split(" ")[0]) == 8192`, for every number and unit. */
  lemma MeasureShow(n: int, unit: string)
    ensures Measure(Reported(n, unit)) == Success(n)
  {
    FirstTokenOfReported(n, unit);
    ParseIntShow(n);
  }

  lemma ReadingShow(n: nat, unit: string)
    ensures Reading(Reported(n, unit)) == Success(n)
  {
    FirstTokenOfReported(n, unit);
    ParseReadingShow(n, "");
  }

  /** pid, executable name and memory of a process node: `int(pid)`, last path component, first token of the memory. */
  function ProcessRow(node: RawProcess): (r: Result<(int, string, int), Fault>)
    ensures r.Success? <==> ParseInt(node.pidText).Some? && Measure(node.memText).Success?
    ensures ParseInt(node.pidText).None? ==> r == Failure(BadNumber(node.pidText))
    ensures r.Success? ==>
      ParseInt(node.pidText) == Some(r.value.0) && r.value.1 == LastComponent(node.pathText)
      && Measure(node.memText) == Success(r.value.2)
  {
    var pid :- IntField(node.pidText);
    var mem :- Measure(node.memText);
    Success((pid, LastComponent(node.pathText), mem))
  }

  /** `ps -o user,comm,etime` output, usable only when it splits into exactly three tokens. */
  function PsFields(output: string): (fields: Option<(string, string, string)>)
    ensures fields.Some? <==> |Words(output)| == 3
    ensures fields.Some? ==> Words(output) == [fields.value.0, fields.value.1, fields.value.2]
  {
    var t := Words(output);
    if |t| == 3 then Some((t[0], t[1], t[2])) else None
  }

  /**
   * What the parser reads from one process node: its pid/name/memory row, its `ps` columns
   * when there are exactly three, and the raw `ps` text (quoted by the root copy's error).
   */
  datatype NodeRead = NodeRead(row: Result<(int, string, int), Fault>, ps: Option<(string, string, string)>, psText: string)

  function ReadNode(node: RawProcess): NodeRead {
    NodeRead(ProcessRow(node), PsFields(node.psOutput), node.psOutput)
  }

  function ReadNodes(nodes: seq<RawProcess>): (scan: seq<NodeRead>)
    ensures |scan| == |nodes|
  {
    if nodes == [] then [] else ReadNodes(nodes[..|nodes| - 1]) + [ReadNode(nodes[|nodes| - 1])]
  }

  /** A node that makes it into the process table, under the given pid. */
  predicate AcceptedAs(rd: NodeRead, pid: int) {
    rd.row.Success? && rd.row.value.0 == pid && rd.ps.Some?
  }

  /** The table entry of an accepted node: `ps` prints user, command, elapsed time, in that order. */
  function EntryOf(rd: NodeRead): ProcInfo
    requires rd.row.Success? && rd.ps.Some?
  {
    ProcInfo(rd.row.value.1, rd.row.value.2, rd.ps.value.0, rd.ps.value.2, rd.ps.value.1)
  }

  /**
   * What a node makes `parse_gpu_props` raise, if anything: an unreadable pid or memory,
   * or, in the root copy only, a `ps` row that is not three tokens.
   */
  function NodeFault(v: Variant, rd: NodeRead): Option<Fault> {
    if rd.row.Failure? then Some(rd.row.error)
    else if rd.ps.None? && v == Root then Some(BadPsOutput(rd.psText))
    else None
  }

  /** One step of the process loop: record the node under its pid, skip it, or raise. */
  function AddProcess(v: Variant, table: map<int, ProcInfo>, rd: NodeRead): (r: Result<map<int, ProcInfo>, Fault>)
    ensures r.Failure? <==> NodeFault(v, rd).Some?
    ensures r.Failure? ==> r.error == NodeFault(v, rd).value
    ensures r.Success? ==> table.Keys <= r.value.Keys
  {
    var row :- rd.row;
    if rd.ps.Some? then Success(table[row.0 := EntryOf(rd)])
    else if v == Packaged then Success(table)
    else Failure(BadPsOutput(rd.psText))
  }

  /** The process table after the loop has run over the nodes read so far, or the first fault it raised. */
  function ProcessTable(v: Variant, scan: seq<NodeRead>): Result<map<int, ProcInfo>, Fault>
    decreases |scan|
  {
    if scan == [] then Success(map[])
    else
      var table :- ProcessTable(v, scan[..|scan| - 1]);
      AddProcess(v, table, scan[|scan| - 1])
  }

  /** Each node adds at most one entry, so the table never has more entries than there were nodes. */
  lemma {:induction false} ProcessTableSize(v: Variant, scan: seq<NodeRead>)
    ensures ProcessTable(v, scan).Success? ==> |ProcessTable(v, scan).value| <= |scan|
    decreases |scan|
  {
    if scan != [] {
      var n := |scan| - 1;
      ProcessTableSize(v, scan[..n]);
      var t := ProcessTable(v, scan[..n]);
      if t.Success? && scan[n].row.Success? && scan[n].ps.Some? {
        var grown := t.value[scan[n].row.value.0 := EntryOf(scan[n])];
        assert grown.Keys == t.value.Keys + {scan[n].row.value.0};
      }
    }
  }

  lemma {:induction false} ProcessTableFailureSticks(v: Variant, scan: seq<NodeRead>, k: nat)
    requires k <= |scan| && ProcessTable(v, scan[..k]).Failure?
    ensures ProcessTable(v, scan) == ProcessTable(v, scan[..k])
    decreases |scan|
  {
    if k < |scan| {
      assert scan[..|scan| - 1][..k] == scan[..k];
      ProcessTableFailureSticks(v, scan[..|scan| - 1], k);
    } else {
      assert scan[..k] == scan;
    }
  }

  /**
   * The loop succeeds exactly when no node faults, and when it fails it reports the fault
   * of the first faulty node: the nodes after it are never looked at.
   */
  lemma {:induction false} ProcessTableFaults(v: Variant, scan: seq<NodeRead>)
    ensures ProcessTable(v, scan).Success? <==> forall k :: 0 <= k < |scan| ==> NodeFault(v, scan[k]).None?
    ensures ProcessTable(v, scan).Failure? ==>
      exists k :: 0 <= k < |scan| && NodeFault(v, scan[k]) == Some(ProcessTable(v, scan).error)
        && forall j :: 0 <= j < k ==> NodeFault(v, scan[j]).None?
    decreases |scan|
  {
    if scan != [] {
      var n := |scan| - 1;
      var prefix := scan[..n];
      ProcessTableFaults(v, prefix);
      assert forall k :: 0 <= k < n ==> prefix[k] == scan[k];
      var t := ProcessTable(v, prefix);
      if t.Success? {
        assert ProcessTable(v, scan) == AddProcess(v, t.value, scan[n]);
        if NodeFault(v, scan[n]).Some? {
          assert forall j :: 0 <= j < n ==> NodeFault(v, scan[j]).None?;
          assert NodeFault(v, scan[n]) == Some(ProcessTable(v, scan).error);
        }
      } else {
        assert ProcessTable(v, scan) == t;
        var k :| 0 <= k < n && NodeFault(v, prefix[k]) == Some(t.error)
          && forall j :: 0 <= j < k ==> NodeFault(v, prefix[j]).None?;
        assert NodeFault(v, scan[k]) == Some(t.error);
      }
    }
  }

  /** Node `k` is the last node accepted under `pid`. */
  predicate LatestFor(scan: seq<NodeRead>, k: int, pid: int)
    requires 0 <= k < |scan|
  {
    AcceptedAs(scan[k], pid) && forall j :: k < j < |scan| ==> !AcceptedAs(scan[j], pid)
  }

  /** The table holds a pid exactly when some accepted node has it. */
  lemma {:induction false} ProcessTableKeys(v: Variant, scan: seq<NodeRead>, pid: int)
    requires ProcessTable(v, scan).Success?
    ensures pid in ProcessTable(v, scan).value <==> exists k :: 0 <= k < |scan| && AcceptedAs(scan[k], pid)
    decreases |scan|
  {
    if scan != [] {
      var n := |scan| - 1;
      var prefix := scan[..n];
      ProcessTableKeys(v, prefix, pid);
      assert forall k :: 0 <= k < n ==> prefix[k] == scan[k];
    }
  }

  /**
   * The entry under a pid is the one built from the last node accepted under it: a later
   * process with the same pid overwrites an earlier one.
   */
  lemma {:induction false} ProcessTableEntries(v: Variant, scan: seq<NodeRead>, pid: int)
    requires ProcessTable(v, scan).Success?
    ensures forall k :: 0 <= k < |scan| && LatestFor(scan, k, pid) ==>
      pid in ProcessTable(v, scan).value && ProcessTable(v, scan).value[pid] == EntryOf(scan[k])
    decreases |scan|
  {
    if scan != [] {
      var n := |scan| - 1;
      var prefix := scan[..n];
      ProcessTableEntries(v, prefix, pid);
      forall k | 0 <= k < |scan| && LatestFor(scan, k, pid)
        ensures pid in ProcessTable(v, scan).value && ProcessTable(v, scan).value[pid] == EntryOf(scan[k])
      {
        if k < n {
          assert prefix[k] == scan[k];
          assert forall j :: k < j < n ==> prefix[j] == scan[j];
          assert LatestFor(prefix, k, pid);
        }
      }
    }
  }

  /** In the packaged copy a process whose `ps` row is not three tokens is skipped and changes nothing else. */
  lemma {:induction false} SkippedProcessIsInvisible(scan: seq<NodeRead>, k: nat)
    requires k < |scan|
    requires scan[k].row.Success? && scan[k].ps.None?
    ensures ProcessTable(Packaged, scan) == ProcessTable(Packaged, scan[..k] + scan[k + 1..])
    decreases |scan|
  {
    var rest := scan[..k] + scan[k + 1..];
    var n := |scan| - 1;
    if k == n {
      assert rest == scan[..n];
    } else {
      SkippedProcessIsInvisible(scan[..n], k);
      assert rest[..|rest| - 1] == scan[..n][..k] + scan[..n][k + 1..];
      assert rest[|rest| - 1] == scan[n];
      var t := ProcessTable(Packaged, rest[..|rest| - 1]);
      assert t == ProcessTable(Packaged, scan[..n]);
      if t.Success? {
        assert ProcessTable(Packaged, rest) == AddProcess(Packaged, t.value, scan[n]);
      }
    }
  }

  /** In the root copy a `ps` row that is not three tokens makes the whole parse fail. */
  lemma RootRejectsShortPsRow(scan: seq<NodeRead>, k: nat)
    requires k < |scan|
    requires scan[k].row.Success? && scan[k].ps.None?
    ensures ProcessTable(Root, scan).Failure?
  {
    ProcessTableFaults(Root, scan);
    assert NodeFault(Root, scan[k]).Some?;
  }

  /**
   * A `ps` row printed as three columns, padded in front and separated by runs of blanks of any
   * width, is accepted, with user, command and elapsed time in that order.
   */
  lemma PsRowAccepted(user: string, command: string, lifetime: string, pad: string, s1: string, s2: string, tail: string)
    requires IsToken(user) && IsToken(command) && IsToken(lifetime)
    requires Blank(pad) && Blank(s1) && Blank(s2) && Blank(tail) && s1 != [] && s2 != []
    ensures PsFields(pad + user + s1 + command + s2 + lifetime + tail) == Some((user, command, lifetime))
  {
    var ws, seps := [user, command, lifetime], [s1, s2, tail];
    var third := lifetime + tail;
    var second := command + s2 + third;
    assert Spaced(ws[2..], seps[2..]) == third by {
      assert Spaced(ws[2..][1..], seps[2..][1..]) == "";
    }
    assert Spaced(ws, seps) == user + s1 + second;
    ConcatAssoc(command + s2, lifetime, tail);
    ConcatAssoc(user + s1, command + s2 + lifetime, tail);
    ConcatAssoc(user + s1 + command, s2, lifetime);
    ConcatAssoc(user + s1, command, s2);
    ConcatAssoc(user + s1, command + s2, lifetime);
    assert user + s1 + command + s2 + lifetime + tail == user + s1 + second;
    ConcatAssoc(pad, user + s1 + second, "");
    WordsSpaced(ws, seps, pad);
    assert pad + user + s1 + command + s2 + lifetime + tail == pad + Spaced(ws, seps) by {
      ConcatAssoc(pad, user + s1, second);
      ConcatAssoc(pad, user, s1);
      ConcatAssoc(pad + user + s1, command, s2);
      ConcatAssoc(pad + user + s1, command + s2, lifetime);
      ConcatAssoc(pad + user + s1, command + s2 + lifetime, tail);
      ConcatAssoc(pad + user + s1 + command, s2, lifetime);
      ConcatAssoc(pad + user + s1 + command + s2, lifetime, tail);
    }
  }

  /** Reading a prefix of the nodes gives the prefix of the reads. */
  lemma {:induction false} ReadNodesPrefix(nodes: seq<RawProcess>, k: nat)
    requires k <= |nodes|
    ensures ReadNodes(nodes)[..k] == ReadNodes(nodes[..k])
    decreases |nodes|
  {
    if k == |nodes| {
      assert nodes[..k] == nodes;
    } else {
      var n := |nodes| - 1;
      var front := ReadNodes(nodes[..n]);
      ReadNodesPrefix(nodes[..n], k);
      assert nodes[..n][..k] == nodes[..k];
      PrefixOfSnoc(front, ReadNode(nodes[n]), k);
    }
  }

  lemma PrefixOfSnoc<T>(s: seq<T>, x: T, k: nat)
    requires k <= |s|
    ensures (s + [x])[..k] == s[..k]
  {
  }

  lemma ReadNodesFailureSticks(v: Variant, nodes: seq<RawProcess>, k: nat)
    requires k <= |nodes| && ProcessTable(v, ReadNodes(nodes[..k])).Failure?
    ensures ProcessTable(v, ReadNodes(nodes)) == ProcessTable(v, ReadNodes(nodes[..k]))
  {
    ReadNodesPrefix(nodes, k);
    ProcessTableFailureSticks(v, ReadNodes(nodes), k);
  }

  /** One more node of the loop: the table so far, extended by that node's step. */
  lemma ProcessTableStep(v: Variant, nodes: seq<RawProcess>, i: nat)
    requires i < |nodes| && ProcessTable(v, ReadNodes(nodes[..i])).Success?
    ensures ProcessTable(v, ReadNodes(nodes[..i + 1]))
      == AddProcess(v, ProcessTable(v, ReadNodes(nodes[..i])).value, ReadNode(nodes[i]))
  {
    var scan := ReadNodes(nodes[..i + 1]);
    assert nodes[..i + 1][..i] == nodes[..i];
    assert scan == ReadNodes(nodes[..i]) + [ReadNode(nodes[i])];
    assert scan[..i] == ReadNodes(nodes[..i]);
  }

  /** One node's step of the loop, in the order the loop body takes its decisions. */
  lemma NodeStep(v: Variant, table: map<int, ProcInfo>, node: RawProcess)
    ensures var row, tokens := ProcessRow(node), Words(node.psOutput);
      AddProcess(v, table, ReadNode(node))
      == if row.Failure? then Failure(row.error)
         else if |tokens| != 3 then (if v == Root then Failure(BadPsOutput(node.psOutput)) else Success(table))
         else Success(table[row.value.0 := ProcInfo(row.value.1, row.value.2, tokens[0], tokens[2], tokens[1])])
  {
  }

  /**
   * One turn of the process loop: the node's pid/name/memory row first, then its `ps` columns;
   * a malformed `ps` row raises in the root copy and is skipped (`continue`) in the packaged one.
   */
  method AddNode(v: Variant, processes: map<int, ProcInfo>, node: RawProcess) returns (next: Result<map<int, ProcInfo>, Fault>)
    ensures next == AddProcess(v, processes, ReadNode(node))
  {
    NodeStep(v, processes, node);
    var row := ProcessRow(node);
    if row.Failure? {
      return Failure(row.error);
    }
    var tokens := Words(node.psOutput);
    if |tokens| != 3 {
      if v == Root {
        return Failure(BadPsOutput(node.psOutput));
      }
      return Success(processes);
    }
    var (pid, name, mem) := row.value;
    return Success(processes[pid := ProcInfo(name, mem, tokens[0], tokens[2], tokens[1])]);
  }

  /** The process loop of `parse_gpu_props`: it stops at the first node that raises. */
  method ParseProcesses(v: Variant, nodes: seq<RawProcess>) returns (r: Result<map<int, ProcInfo>, Fault>)
    ensures r == ProcessTable(v, ReadNodes(nodes))
  {
    var processes: map<int, ProcInfo> := map[];
    var i := 0;
    while i < |nodes|
      invariant 0 <= i <= |nodes|
      invariant ProcessTable(v, ReadNodes(nodes[..i])) == Success(processes)
    {
      ProcessTableStep(v, nodes, i);
      var next := AddNode(v, processes, nodes[i]);
      if next.Failure? {
        ReadNodesFailureSticks(v, nodes, i + 1);
        return next;
      }
      processes := next.value;
      i := i + 1;
    }
    assert nodes[..i] == nodes;
    return Success(processes);
  }

  /** The scalar fields' parses, in the order `parse_gpu_props` reads them (utilization only in the packaged copy). */
  function FieldParses(v: Variant, raw: RawGpu): (fields: seq<Result<int, Fault>>)
    ensures |fields| == if v == Packaged then 8 else 7
  {
    [Measure(raw.totalMemText), Measure(raw.usedMemText), Measure(raw.fanText),
     Reading(raw.tempText), Reading(raw.maxTempText), Reading(raw.usedPowerText), Reading(raw.powerLimitText)]
    + (if v == Packaged then [Measure(raw.utilizationText)] else [])
  }

  /** The fault of the first field that failed to parse; `None` when all of them parsed. */
  function FirstFault(fields: seq<Result<int, Fault>>): (fault: Option<Fault>)
    ensures fault.None? <==> forall i :: 0 <= i < |fields| ==> fields[i].Success?
    ensures fault.Some? ==>
      exists i :: 0 <= i < |fields| && fields[i] == Failure(fault.value) && forall j :: 0 <= j < i ==> fields[j].Success?
  {
    if fields == [] then None
    else if fields[0].Failure? then Some(fields[0].error)
    else
      var rest := FirstFault(fields[1..]);
      assert forall i :: 1 <= i < |fields| ==> fields[1..][i - 1] == fields[i];
      rest
  }

  /** The numeric fields of a record, or the fault of the first one that is not a number. */
  function AssembleReadings(v: Variant, fields: seq<Result<int, Fault>>): (r: Result<Readings, Fault>)
    requires |fields| == if v == Packaged then 8 else 7
    ensures r.Success? <==> forall i :: 0 <= i < |fields| ==> fields[i].Success?
    ensures r.Success? ==> (r.value.utilization.Some? <==> v == Packaged)
    ensures r.Success? ==>
      r.value.totalMem == fields[0].value && r.value.usedMem == fields[1].value && r.value.fan == fields[2].value
      && r.value.temp == fields[3].value && r.value.maxTemp == fields[4].value
      && r.value.usedPower == fields[5].value && r.value.powerLimit == fields[6].value
      && (v == Packaged ==> r.value.utilization.value == fields[7].value)
    ensures r.Failure? ==> FirstFault(fields) == Some(r.error)
  {
    match FirstFault(fields)
    case Some(e) => Failure(e)
    case None =>
      Success(Readings(fields[0].value, fields[1].value, fields[2].value, fields[3].value,
        fields[4].value, fields[5].value, fields[6].value,
        if v == Packaged then Some(fields[7].value) else None))
  }

  function ScalarReadings(v: Variant, raw: RawGpu): Result<Readings, Fault> {
    AssembleReadings(v, FieldParses(v, raw))
  }

  /** What `parse_gpu_props` returns for one `gpu` node, or the first `ValueError` it raises. */
  function GpuPropsOf(v: Variant, raw: RawGpu): (r: Result<GpuProps, Fault>)
    ensures r.Success? ==> (r.value.readings.utilization.Some? <==> v == Packaged)
  {
    var readings :- ScalarReadings(v, raw);
    var processes :- ProcessTable(v, ReadNodes(raw.processNodes));
    Success(GpuProps(raw.productName, readings, processes))
  }

  /** The fields of a record, every one parsed, in the order `parse_gpu_props` reads them. */
  function ParsedFields(v: Variant, r: Readings): (fields: seq<Result<int, Fault>>)
    requires v == Packaged ==> r.utilization.Some?
    ensures |fields| == if v == Packaged then 8 else 7
  {
    [Success(r.totalMem), Success(r.usedMem), Success(r.fan), Success(r.temp),
     Success(r.maxTemp), Success(r.usedPower), Success(r.powerLimit)]
    + (if v == Packaged then [Success(r.utilization.value)] else [])
  }

  /**
   * The numeric texts of a `gpu` node are the readings `r` as nvidia-smi writes them, with their
   * units; temperatures and powers are whole and non-negative, and only the packaged copy has
   * a utilization.
   */
  predicate WrittenAs(v: Variant, raw: RawGpu, r: Readings, memUnit: string, percentUnit: string, tempUnit: string, powerUnit: string) {
    raw.totalMemText == Reported(r.totalMem, memUnit) && raw.usedMemText == Reported(r.usedMem, memUnit)
    && raw.fanText == Reported(r.fan, percentUnit)
    && r.temp >= 0 && raw.tempText == Reported(r.temp, tempUnit)
    && r.maxTemp >= 0 && raw.maxTempText == Reported(r.maxTemp, tempUnit)
    && r.usedPower >= 0 && raw.usedPowerText == Reported(r.usedPower, powerUnit)
    && r.powerLimit >= 0 && raw.powerLimitText == Reported(r.powerLimit, powerUnit)
    && (v == Packaged <==> r.utilization.Some?)
    && (v == Packaged ==> raw.utilizationText == Reported(r.utilization.value, percentUnit))
  }

  /** Numbers written as nvidia-smi writes them parse back to themselves, field by field. */
  lemma FieldParsesReported(v: Variant, raw: RawGpu, r: Readings, memUnit: string, percentUnit: string, tempUnit: string, powerUnit: string)
    requires WrittenAs(v, raw, r, memUnit, percentUnit, tempUnit, powerUnit)
    ensures FieldParses(v, raw) == ParsedFields(v, r)
  {
    MeasureShow(r.totalMem, memUnit);
    MeasureShow(r.usedMem, memUnit);
    MeasureShow(r.fan, percentUnit);
    ReadingShow(r.temp, tempUnit);
    ReadingShow(r.maxTemp, tempUnit);
    ReadingShow(r.usedPower, powerUnit);
    ReadingShow(r.powerLimit, powerUnit);
    if v == Packaged {
      MeasureShow(r.utilization.value, percentUnit);
    }
  }

  /** Assembling the parsed fields of a record gives the record back. */
  lemma AssembleParsedFields(v: Variant, r: Readings)
    requires v == Packaged <==> r.utilization.Some?
    ensures AssembleReadings(v, ParsedFields(v, r)) == Success(r)
  {
    var fields := ParsedFields(v, r);
    assert forall i :: 0 <= i < |fields| ==> fields[i].Success?;
  }

  /**
   * A `gpu` node whose numbers are written as nvidia-smi writes them (`"<n> <unit>"`) and whose
   * process nodes parse gives the record of exactly those numbers, each in its own slot.
   */
  lemma GpuPropsOfReported(v: Variant, raw: RawGpu, r: Readings, memUnit: string, percentUnit: string, tempUnit: string, powerUnit: string)
    requires WrittenAs(v, raw, r, memUnit, percentUnit, tempUnit, powerUnit)
    requires ProcessTable(v, ReadNodes(raw.processNodes)).Success?
    ensures GpuPropsOf(v, raw) == Success(GpuProps(raw.productName, r, ProcessTable(v, ReadNodes(raw.processNodes)).value))
  {
    FieldParsesReported(v, raw, r, memUnit, percentUnit, tempUnit, powerUnit);
    AssembleParsedFields(v, r);
  }

  /** `parse_gpu_props` as a method: the scalar fields, then the process loop. */
  method ParseGpuProps(v: Variant, raw: RawGpu) returns (r: Result<GpuProps, Fault>)
    ensures r == GpuPropsOf(v, raw)
  {
    var readings := ScalarReadings(v, raw);
    if readings.Failure? {
      return Failure(readings.error);
    }
    var processes := ParseProcesses(v, raw.processNodes);
    if processes.Failure? {
      return Failure(processes.error);
    }
    return Success(GpuProps(raw.productName, readings.value, processes.value));
  }
}
