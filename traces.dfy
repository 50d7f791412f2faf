/**
 Traces and span batches. A trace is an ordered sequence of spans; the spans
 themselves are opaque to the writer, so they are a type parameter here.
 A flush hands the transport one flat batch: the drained traces concatenated
 in buffer order.
 */
module Traces {

  type Trace<S> = seq<S>

  /** Number of spans held by a list of traces. */
  function TotalSpans<S>(ts: seq<Trace<S>>): (n: nat)
  {
    if ts == [] then 0 else |ts[0]| + TotalSpans(ts[1..])
  }

  /** The one flat span batch made from a list of traces (`traces.flatten()`). */
  function Flatten<S>(ts: seq<Trace<S>>): (batch: seq<S>)
    ensures |batch| == TotalSpans(ts)
  {
    if ts == [] then [] else ts[0] + Flatten(ts[1..])
  }

  /** Flattening distributes over concatenation of trace lists. */
  lemma {:induction false} FlattenAppend<S>(a: seq<Trace<S>>, b: seq<Trace<S>>)
    ensures Flatten(a + b) == Flatten(a) + Flatten(b)
  {
    if a == [] {
      assert a + b == b;
    } else {
      assert (a + b)[1..] == a[1..] + b;
      FlattenAppend(a[1..], b);
    }
  }

  /** Adding one trace at the end adds its spans at the end of the batch. */
  lemma FlattenSnoc<S>(ts: seq<Trace<S>>, t: Trace<S>)
    ensures Flatten(ts + [t]) == Flatten(ts) + t
  {
    FlattenAppend(ts, [t]);
    assert [t][1..] == [];
  }

  /** The span counts of the prefixes tile the batch: each trace adds its own length. */
  lemma TotalSpansPrefix<S>(ts: seq<Trace<S>>, i: nat)
    requires i < |ts|
    ensures TotalSpans(ts[..i + 1]) == TotalSpans(ts[..i]) + |ts[i]|
  {
    assert ts[..i + 1] == ts[..i] + [ts[i]];
    FlattenSnoc(ts[..i], ts[i]);
  }

  /** Trace `i` of the list occupies, unchanged and in full, the stretch of the
      batch that starts right after the spans of the traces before it. */
  lemma FlattenSegment<S>(ts: seq<Trace<S>>, i: nat)
    requires i < |ts|
    ensures TotalSpans(ts[..i]) + |ts[i]| <= |Flatten(ts)|
    ensures Flatten(ts)[TotalSpans(ts[..i])..TotalSpans(ts[..i]) + |ts[i]|] == ts[i]
  {
    var before, rest := ts[..i], ts[i + 1..];
    assert ts == before + ([ts[i]] + rest);
    FlattenAppend(before, [ts[i]] + rest);
    FlattenAppend([ts[i]], rest);
    assert Flatten([ts[i]]) == ts[i] by {
      assert [ts[i]][1..] == [];
    }
    assert Flatten(ts) == Flatten(before) + (ts[i] + Flatten(rest));
  }

  /** Every span of the batch comes from one of the traces. */
  lemma {:induction false} FlattenFrom<S>(ts: seq<Trace<S>>, s: S)
    requires s in Flatten(ts)
    ensures exists i :: 0 <= i < |ts| && s in ts[i]
  {
    if s in ts[0] {
      assert 0 < |ts|;
    } else {
      FlattenFrom(ts[1..], s);
      var i :| 0 <= i < |ts[1..]| && s in ts[1..][i];
      assert s in ts[i + 1];
    }
  }
}
