/**
 * The tracker: it polls nvidia-smi, parses every `gpu` node with `parse_gpu_props`, and keeps the
 * result as a dictionary keyed by the node's position in the document.
 */
module Query {
  import opened Wrappers
  import opened Snapshot

  /** `parse_gpu_props` applied to every `gpu` node, in document order. */
  function ParseAll(v: Variant, gpus: seq<RawGpu>): (parsed: seq<Result<GpuProps, Fault>>)
    ensures |parsed| == |gpus|
  {
    seq(|gpus|, k requires 0 <= k < |gpus| => GpuPropsOf(v, gpus[k]))
  }

  /** The records keyed 0..n-1 in order, or the first fault among them. */
  function Collect(parsed: seq<Result<GpuProps, Fault>>): Result<map<nat, GpuProps>, Fault>
    decreases |parsed|
  {
    if parsed == [] then Success(map[])
    else
      var buffer :- Collect(parsed[..|parsed| - 1]);
      var props :- parsed[|parsed| - 1];
      Success(buffer[|parsed| - 1 := props])
  }

  /** The dictionary comprehension `{i: parse_gpu_props(gpu) for i, gpu in enumerate(gpus)}`. */
  function BufferOf(v: Variant, gpus: seq<RawGpu>): (r: Result<map<nat, GpuProps>, Fault>)
    ensures r.Success? ==> |r.value| == |gpus|
  {
    var parsed := ParseAll(v, gpus);
    if Collect(parsed).Success? then CollectKeys(parsed); Collect(parsed) else Collect(parsed)
  }

  /** A buffer as a successful poll leaves it: keys exactly 0..n-1, utilization present only in the packaged copy. */
  ghost predicate IsSnapshot(v: Variant, buffer: map<nat, GpuProps>) {
    (forall k: nat :: k in buffer <==> k < |buffer|)
    && (forall k :: k in buffer ==> (buffer[k].readings.utilization.Some? <==> v == Packaged))
  }

  /** Collecting succeeds exactly when every record parsed. */
  lemma {:induction false} CollectSucceeds(parsed: seq<Result<GpuProps, Fault>>)
    ensures Collect(parsed).Success? <==> forall k :: 0 <= k < |parsed| ==> parsed[k].Success?
    decreases |parsed|
  {
    if parsed != [] {
      var n := |parsed| - 1;
      CollectSucceeds(parsed[..n]);
      assert forall k :: 0 <= k < n ==> parsed[..n][k] == parsed[k];
    }
  }

  /** A successful collection has exactly the keys 0..n-1. */
  lemma {:induction false} CollectKeys(parsed: seq<Result<GpuProps, Fault>>)
    requires Collect(parsed).Success?
    ensures |Collect(parsed).value| == |parsed|
    ensures forall k: nat :: k in Collect(parsed).value <==> k < |parsed|
    decreases |parsed|
  {
    if parsed != [] {
      var n := |parsed| - 1;
      CollectKeys(parsed[..n]);
      var prefix := Collect(parsed[..n]).value;
      assert n !in prefix;
      assert Collect(parsed).value.Keys == prefix.Keys + {n};
    }
  }

  /** A successful collection maps each index to the record parsed there. */
  lemma {:induction false} CollectContents(parsed: seq<Result<GpuProps, Fault>>)
    requires Collect(parsed).Success?
    ensures forall k :: 0 <= k < |parsed| ==>
      parsed[k].Success? && k in Collect(parsed).value && Collect(parsed).value[k] == parsed[k].value
    decreases |parsed|
  {
    if parsed != [] {
      var n := |parsed| - 1;
      CollectContents(parsed[..n]);
      assert forall k :: 0 <= k < n ==> parsed[..n][k] == parsed[k];
    }
  }

  /** A failed collection reports the fault of the first record that failed. */
  lemma {:induction false} CollectFirstFault(parsed: seq<Result<GpuProps, Fault>>)
    requires Collect(parsed).Failure?
    ensures exists k :: 0 <= k < |parsed| && parsed[k] == Failure(Collect(parsed).error) && forall j :: 0 <= j < k ==> parsed[j].Success?
    decreases |parsed|
  {
    var n := |parsed| - 1;
    var prefix := parsed[..n];
    assert forall k :: 0 <= k < n ==> prefix[k] == parsed[k];
    if Collect(prefix).Failure? {
      CollectFirstFault(prefix);
    } else {
      CollectSucceeds(prefix);
      assert forall j :: 0 <= j < n ==> parsed[j].Success?;
    }
  }

  /** The comprehension succeeds exactly when every node parses. */
  lemma BufferOfSucceeds(v: Variant, gpus: seq<RawGpu>)
    ensures BufferOf(v, gpus).Success? <==> forall k :: 0 <= k < |gpus| ==> GpuPropsOf(v, gpus[k]).Success?
  {
    var parsed := ParseAll(v, gpus);
    assert BufferOf(v, gpus) == Collect(parsed);
    CollectSucceeds(parsed);
    assert forall k :: 0 <= k < |gpus| ==> parsed[k] == GpuPropsOf(v, gpus[k]);
  }

  /** A successful comprehension holds one record per node, keyed 0..n-1 by the node's index. */
  lemma BufferOfKeys(v: Variant, gpus: seq<RawGpu>)
    requires BufferOf(v, gpus).Success?
    ensures |BufferOf(v, gpus).value| == |gpus|
    ensures forall k: nat :: k in BufferOf(v, gpus).value <==> k < |gpus|
  {
    CollectKeys(ParseAll(v, gpus));
  }

  lemma BufferOfRecords(v: Variant, gpus: seq<RawGpu>, k: nat)
    requires BufferOf(v, gpus).Success? && k < |gpus|
    ensures k in BufferOf(v, gpus).value && GpuPropsOf(v, gpus[k]).Success?
    ensures BufferOf(v, gpus).value[k] == GpuPropsOf(v, gpus[k]).value
  {
    var parsed := ParseAll(v, gpus);
    CollectContents(parsed);
    assert parsed[k] == GpuPropsOf(v, gpus[k]);
  }

  /** A failed comprehension reports the fault of the first node that does not parse. */
  lemma BufferOfFirstFault(v: Variant, gpus: seq<RawGpu>)
    requires BufferOf(v, gpus).Failure?
    ensures exists k :: 0 <= k < |gpus| && GpuPropsOf(v, gpus[k]) == Failure(BufferOf(v, gpus).error) && forall j :: 0 <= j < k ==> GpuPropsOf(v, gpus[j]).Success?
  {
    var parsed := ParseAll(v, gpus);
    CollectFirstFault(parsed);
    var k :| 0 <= k < |parsed| && parsed[k] == Failure(Collect(parsed).error)
      && forall j :: 0 <= j < k ==> parsed[j].Success?;
    assert GpuPropsOf(v, gpus[k]) == parsed[k];
    forall j | 0 <= j < k
      ensures GpuPropsOf(v, gpus[j]).Success?
    {
      assert parsed[j] == GpuPropsOf(v, gpus[j]);
    }
  }

  /** Every successful poll leaves a dense snapshot with one record per `gpu` node. */
  lemma BufferIsSnapshot(v: Variant, gpus: seq<RawGpu>)
    requires BufferOf(v, gpus).Success?
    ensures IsSnapshot(v, BufferOf(v, gpus).value) && |BufferOf(v, gpus).value| == |gpus|
  {
    var parsed := ParseAll(v, gpus);
    CollectKeys(parsed);
    CollectContents(parsed);
    var buffer := Collect(parsed).value;
    forall k | k in buffer
      ensures buffer[k].readings.utilization.Some? <==> v == Packaged
    {
      assert parsed[k].Success?;
      assert buffer[k] == parsed[k].value;
    }
  }

  /** The `Tracker` object: its polling rate, its latest buffer and the GPU count fixed by its first poll. */
  class Tracker {
    const variant: Variant
    var pollingRate: int
    var propsBuffer: Option<map<nat, GpuProps>>
    var filename: Option<string>
    var numGpus: nat

    /** Once a poll has succeeded, the buffer is a dense snapshot. */
    ghost predicate Valid()
      reads this
    {
      propsBuffer.Some? ==> IsSnapshot(variant, propsBuffer.value)
    }

    /** The fields `__init__` sets before its first poll. */
    constructor (variant: Variant, pollingRate: int)
      ensures Valid()
      ensures this.variant == variant && this.pollingRate == pollingRate
      ensures propsBuffer.None? && filename.None? && numGpus == 0
    {
      this.variant := variant;
      this.pollingRate := pollingRate;
      propsBuffer := None;
      filename := None;
      numGpus := 0;
    }

    /**
     * `poll`, given the `gpu` nodes of the document nvidia-smi printed: the buffer is replaced
     * wholesale by the new dictionary, or, when parsing raises, left as it was.
     */
    method Poll(gpus: seq<RawGpu>) returns (outcome: Outcome<Fault>)
      requires Valid()
      modifies this
      ensures Valid()
      ensures outcome.Pass? <==> BufferOf(variant, gpus).Success?
      ensures outcome.Pass? ==> propsBuffer == Some(BufferOf(variant, gpus).value)
      ensures outcome.Fail? ==> outcome.error == BufferOf(variant, gpus).error && propsBuffer == old(propsBuffer)
      ensures numGpus == old(numGpus) && pollingRate == old(pollingRate) && filename == old(filename)
    {
      var buffer := BufferOf(variant, gpus);
      if buffer.Failure? {
        return Fail(buffer.error);
      }
      BufferIsSnapshot(variant, gpus);
      propsBuffer := Some(buffer.value);
      return Pass;
    }

    /**
     * `__init__`: exactly one poll, then `num_gpus` is the number of keys of that first buffer.
     * The root copy's `method` and `filename` arguments have no effect and are not parameters here.
     */
    static method Create(variant: Variant, pollingRate: int, first: seq<RawGpu>) returns (r: Result<Tracker, Fault>)
      ensures r.Success? <==> BufferOf(variant, first).Success?
      ensures r.Failure? ==> r.error == BufferOf(variant, first).error
      ensures r.Success? ==>
        fresh(r.value) && r.value.Valid()
        && r.value.variant == variant && r.value.pollingRate == pollingRate
        && r.value.propsBuffer == Some(BufferOf(variant, first).value)
        && r.value.numGpus == |first|
        && r.value.filename.None?
    {
      var tracker := new Tracker(variant, pollingRate);
      var outcome := tracker.Poll(first);
      if outcome.Fail? {
        return Failure(outcome.error);
      }
      BufferIsSnapshot(variant, first);
      tracker.numGpus := |tracker.propsBuffer.value|;
      return Success(tracker);
    }
  }
}
