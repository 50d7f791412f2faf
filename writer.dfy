/**
 The trace writer: a bounded trace buffer with random-replacement eviction,
 and the writer that owns it, drains it on flush and hands the drained spans
 to a transport as one batch.
 */
module Datadog {

  import opened Traces
  import opened Transports

  /** Capacity of the buffer a writer creates. */
  const BufferCapacity: nat := 100

  function Min(a: int, b: int): (m: int)
  {
    if a <= b then a else b
  }

  /** What one `push` of `trace` may do to a buffer holding `before` with
      capacity `maxSize`: append while below capacity, otherwise overwrite one
      existing slot (the random choice is left open). */
  ghost predicate PushStep<S>(before: seq<Trace<S>>, after: seq<Trace<S>>, maxSize: nat, trace: Trace<S>)
  {
    if |before| < maxSize then after == before + [trace]
    else exists slot :: Overwrites(before, after, slot, trace)
  }

  /** `after` is `before` with slot `slot` replaced by `trace`. */
  ghost predicate Overwrites<S>(before: seq<Trace<S>>, after: seq<Trace<S>>, slot: int, trace: Trace<S>)
  {
    0 <= slot < |before| && after == before[slot := trace]
  }

  /** The consequences of one push that a caller relies on. */
  lemma PushStepFacts<S>(before: seq<Trace<S>>, after: seq<Trace<S>>, maxSize: nat, trace: Trace<S>)
    requires |before| <= maxSize
    requires PushStep(before, after, maxSize, trace)
    ensures |after| <= maxSize
    ensures trace in after
    ensures forall x :: x in after ==> x in before || x == trace
    ensures |before| < maxSize ==>
      |after| == |before| + 1 && after[..|before|] == before && after[|before|] == trace
    ensures |before| == maxSize ==>
      |after| == |before| &&
      exists slot :: 0 <= slot < |before| && after[slot] == trace &&
        forall j :: 0 <= j < |before| && j != slot ==> after[j] == before[j]
  {
    if |before| == maxSize {
      var slot :| Overwrites(before, after, slot, trace);
      assert after[slot] == trace;
      forall x | x in after
        ensures x in before || x == trace
      {
        var j :| 0 <= j < |after| && after[j] == x;
        if j != slot {
          assert before[j] == x;
        }
      }
    } else {
      assert after[|before|] == trace;
    }
  }

  /** At capacity, any slot may be the one overwritten. */
  lemma AnySlotMayBeEvicted<S>(before: seq<Trace<S>>, maxSize: nat, trace: Trace<S>, slot: nat)
    requires |before| == maxSize
    requires slot < |before|
    ensures PushStep(before, before[slot := trace], maxSize, trace)
  {
    assert Overwrites(before, before[slot := trace], slot, trace);
  }

  /** `states[k + 1]` is the buffer after pushing `written[k]` onto `states[k]`. */
  ghost predicate PushRun<S>(states: seq<seq<Trace<S>>>, written: seq<Trace<S>>, maxSize: nat)
  {
    |states| == |written| + 1 &&
    forall k :: 0 <= k < |written| ==> PushStep(states[k], states[k + 1], maxSize, written[k])
  }

  /** After `k` pushes the buffer holds as many traces as were offered, up to the capacity. */
  lemma {:induction false} RunLength<S>(states: seq<seq<Trace<S>>>, written: seq<Trace<S>>, maxSize: nat, k: nat)
    requires PushRun(states, written, maxSize)
    requires |states[0]| <= maxSize
    requires k < |states|
    ensures |states[k]| == Min(|states[0]| + k, maxSize)
  {
    if k > 0 {
      RunLength(states, written, maxSize, k - 1);
      PushStepFacts(states[k - 1], states[k], maxSize, written[k - 1]);
    }
  }

  /** When nothing had to be evicted, the buffer is the original contents
      followed by the pushed traces in arrival order. */
  lemma {:induction false} RunWithoutEviction<S>(states: seq<seq<Trace<S>>>, written: seq<Trace<S>>, maxSize: nat, k: nat)
    requires PushRun(states, written, maxSize)
    requires |states[0]| + |written| <= maxSize
    requires k < |states|
    ensures states[k] == states[0] + written[..k]
  {
    if k > 0 {
      RunWithoutEviction(states, written, maxSize, k - 1);
      assert PushStep(states[k - 1], states[k], maxSize, written[k - 1]);
      assert written[..k] == written[..k - 1] + [written[k - 1]];
    }
  }

  /** The buffer only ever holds traces it started with or that were pushed. */
  lemma {:induction false} RunHoldsOnlyWritten<S>(states: seq<seq<Trace<S>>>, written: seq<Trace<S>>, maxSize: nat, k: nat)
    requires PushRun(states, written, maxSize)
    requires |states[0]| <= maxSize
    requires k < |states|
    ensures forall x :: x in states[k] ==> x in states[0] || x in written[..k]
  {
    if k > 0 {
      RunHoldsOnlyWritten(states, written, maxSize, k - 1);
      RunLength(states, written, maxSize, k - 1);
      PushStepFacts(states[k - 1], states[k], maxSize, written[k - 1]);
      assert written[..k] == written[..k - 1] + [written[k - 1]];
    }
  }

  /** Capacity 2, three pushes onto an empty buffer: the buffer holds two
      traces, the third one and exactly one of the first two in its slot. */
  lemma CapacityTwoThreePushes<S>(b1: seq<Trace<S>>, b2: seq<Trace<S>>, b3: seq<Trace<S>>, t1: Trace<S>, t2: Trace<S>, t3: Trace<S>)
    requires PushRun([[], b1, b2, b3], [t1, t2, t3], 2)
    ensures b3 == [t3, t2] || b3 == [t1, t3]
  {
    var states, written := [[], b1, b2, b3], [t1, t2, t3];
    assert PushStep(states[0], states[1], 2, written[0]);
    assert PushStep(states[1], states[2], 2, written[1]);
    assert PushStep(states[2], states[3], 2, written[2]);
    assert b2 == [t1, t2];
    var slot :| Overwrites(b2, b3, slot, t3);
  }

  /** Counters reported by `Writer.Stats`. */
  datatype WriterStats = WriterStats(tracesFlushed: nat, tracesBuffered: nat)

  /** A bounded list of traces waiting to be sent. */
  class TraceBuffer<S> {
    var traces: seq<Trace<S>>
    const maxSize: nat

    ghost predicate Valid()
      reads this
    {
      0 < maxSize && |traces| <= maxSize
    }

    constructor (maxSize: nat)
      requires 0 < maxSize
      ensures Valid()
      ensures this.maxSize == maxSize && traces == []
    {
      this.maxSize := maxSize;
      traces := [];
    }

    /** Appends below capacity; at capacity overwrites a slot chosen at random. */
    method Push(trace: Trace<S>)
      requires Valid()
      modifies this
      ensures Valid()
      ensures PushStep(old(traces), traces, maxSize, trace)
    {
      var len := |traces|;
      if len < maxSize {
        traces := traces + [trace];
      } else {
        var slot :| 0 <= slot < len;
        ghost var before := traces;
        traces := traces[slot := trace];
        assert Overwrites(before, traces, slot, trace);
      }
    }

    /** Number of traces held. */
    function Length(): (n: nat)
      reads this
      requires Valid()
      ensures n <= maxSize
    {
      |traces|
    }

    /** Hands back everything held, in order, and leaves the buffer empty. */
    method Pop() returns (t: seq<Trace<S>>)
      requires Valid()
      modifies this
      ensures Valid()
      ensures t == old(traces) && traces == []
    {
      t := traces;
      traces := [];
    }
  }

  /** Buffers traces and sends them to the transport when flushed. */
  class Writer<S> {
    const transport: RecordingTransport<S>
    const traceBuffer: TraceBuffer<S>
    var tracesFlushed: nat
    /** Traces handed to `Write` so far. */
    ghost var written: nat
    /** Traces evicted from the buffer or lost with a failed send. */
    ghost var lost: nat

    ghost predicate Valid()
      reads this, traceBuffer
    {
      traceBuffer.Valid() &&
      traceBuffer.maxSize == BufferCapacity &&
      tracesFlushed + |traceBuffer.traces| + lost == written
    }

    constructor (transport: RecordingTransport<S>)
      ensures Valid() && fresh(traceBuffer)
      ensures this.transport == transport
      ensures traceBuffer.traces == [] && tracesFlushed == 0
      ensures written == 0 && lost == 0
    {
      this.transport := transport;
      traceBuffer := new TraceBuffer(BufferCapacity);
      tracesFlushed := 0;
      written, lost := 0, 0;
    }

    /** Drains the buffer and, if anything was held, sends all its spans as
        one batch. `ok` is false when the transport failed; the drained
        traces are then gone and not counted. */
    method Flush() returns (ok: bool)
      requires Valid()
      modifies this, traceBuffer, transport
      ensures Valid()
      ensures traceBuffer.traces == [] && written == old(written)
      ensures old(traceBuffer.traces) == [] ==>
        ok && transport.calls == old(transport.calls) && tracesFlushed == old(tracesFlushed)
      ensures old(traceBuffer.traces) != [] ==>
        transport.calls == old(transport.calls) + [Flatten(old(traceBuffer.traces))] &&
        tracesFlushed == old(tracesFlushed) + (if ok then |old(traceBuffer.traces)| else 0)
    {
      var traces := traceBuffer.Pop();
      ok := true;
      if 0 < |traces| {
        var spans := Flatten(traces);
        ok := transport.Write(spans);
        if ok {
          tracesFlushed := tracesFlushed + |traces|;
        } else {
          lost := lost + |traces|;
        }
      }
    }

    /** Queues a trace for the next flush. */
    method Write(trace: Trace<S>)
      requires Valid()
      modifies this, traceBuffer
      ensures Valid()
      ensures PushStep(old(traceBuffer.traces), traceBuffer.traces, BufferCapacity, trace)
      ensures tracesFlushed == old(tracesFlushed) && written == old(written) + 1
    {
      if |traceBuffer.traces| == BufferCapacity {
        lost := lost + 1;
      }
      written := written + 1;
      traceBuffer.Push(trace);
    }

    /** The flushed count and the number of traces currently buffered. */
    function Stats(): (s: WriterStats)
      reads this, traceBuffer
      requires Valid()
      ensures s.tracesBuffered <= BufferCapacity
      ensures s.tracesFlushed + s.tracesBuffered <= written
    {
      WriterStats(tracesFlushed, traceBuffer.Length())
    }
  }

  /** A fresh writer that is given five traces and then flushed reports five
      traces flushed and none buffered, unless the send failed. */
  method FiveWritesThenFlush<S>(transport: RecordingTransport<S>, t1: Trace<S>, t2: Trace<S>, t3: Trace<S>, t4: Trace<S>, t5: Trace<S>)
    returns (ok: bool, s: WriterStats)
    modifies transport
    ensures transport.calls == old(transport.calls) + [t1 + t2 + t3 + t4 + t5]
    ensures ok ==> s == WriterStats(5, 0)
    ensures !ok ==> s == WriterStats(0, 0)
  {
    var w := new Writer(transport);
    w.Write(t1);
    w.Write(t2);
    w.Write(t3);
    w.Write(t4);
    w.Write(t5);
    assert w.traceBuffer.traces == [t1, t2, t3, t4, t5];
    ok := w.Flush();
    s := w.Stats();
    assert [] + [t1] == [t1] && [t1] + [t2] == [t1, t2] && [t1, t2] + [t3] == [t1, t2, t3];
    assert [t1, t2, t3] + [t4] == [t1, t2, t3, t4] && [t1, t2, t3, t4] + [t5] == [t1, t2, t3, t4, t5];
    FlattenSnoc([], t1);
    FlattenSnoc([t1], t2);
    FlattenSnoc([t1, t2], t3);
    FlattenSnoc([t1, t2, t3], t4);
    FlattenSnoc([t1, t2, t3, t4], t5);
    assert Flatten([t1]) == t1 by {
      assert Flatten([]) + t1 == t1;
    }
  }
}
