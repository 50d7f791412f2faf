# dd-trace-rb trace writer, modelled in Dafny

This project models the trace writer of the Ruby tracer `dd-trace-rb`
(`lib/ddtrace/writer.rb`). Application code hands finished traces (ordered
lists of spans) to `Writer#write`. They wait in a `TraceBuffer` holding at
most `max_size` traces (100 for a writer). When the buffer is full, a push
overwrites one randomly chosen slot, so one buffered trace is dropped. A flush
drains the buffer in one step. If anything was drained, the traces are
flattened into one span batch, the batch goes to the transport, and
`traces_flushed` grows by the number of traces (not spans) sent. `stats`
reports that counter and the current buffer length.

Files:

- `traces.dfy` (module `Traces`): traces as `seq<S>` over an opaque span type
  `S`; `Flatten`, the one flat batch a flush sends, and its properties.
- `transport.dfy` (module `Transports`): `RecordingTransport`, a stand-in for
  the transport collaborator. It logs every batch it is asked to send. The
  outcome of each send is left open.
- `writer.dfy` (module `Datadog`): `PushStep`, the relation between a
  buffer's contents before and after one push; lemmas about single pushes and
  about runs of pushes; the classes `TraceBuffer` and `Writer`.

`TraceBuffer` keeps its traces in a `seq` field that `Push` and `Pop`
reassign. `Push` makes a nondeterministic choice (`:|`) of the slot to
overwrite. This stands in for `rand(len)`. `Writer` owns one `TraceBuffer` of
capacity 100 and the `traces_flushed` counter. It also keeps two ghost
counters: `written` counts the traces handed to `Write`, and `lost` counts
those evicted or lost with a failed send. Its invariant is
`tracesFlushed + buffered + lost == written`.

In the code,
an exception from `@transport.write` (line 37) propagates out of `flush`
before the counter update on line 38. The model gives this failure as
`Flush` returning `ok == false`: the batch was popped and sent, and the
counter does not move.

## Model

| member | source | states |
|---|---|---|
| `Traces.Flatten` | lib/ddtrace/writer.rb:34 | the batch has exactly as many spans as the drained traces hold together; an empty trace list gives an empty batch |
| `Traces.FlattenAppend` | lib/ddtrace/writer.rb:34 | flattening two trace lists one after the other gives the two batches one after the other |
| `Traces.FlattenSnoc` | lib/ddtrace/writer.rb:34 | one more trace at the end of the list puts its spans, in order, at the end of the batch |
| `Traces.TotalSpansPrefix` | lib/ddtrace/writer.rb:34 | each trace adds exactly its own span count to the running total, so the per-trace stretches of the batch tile it |
| `Traces.FlattenSegment` | lib/ddtrace/writer.rb:34 | trace `i` appears whole and in its own span order in the batch, right after the spans of the traces before it |
| `Traces.FlattenFrom` | lib/ddtrace/writer.rb:34 | every span in the batch belongs to one of the drained traces |
| `Datadog.PushStepFacts` | lib/ddtrace/writer.rb:67-76 | a push keeps the length within `max_size`, and the new trace is present afterwards; below capacity it appends, so the length grows by one and earlier entries are unchanged; at capacity the length is unchanged and exactly one slot in `[0, len)` now holds the new trace, with every other slot unchanged; nothing but the old entries and the new trace is held |
| `Datadog.AnySlotMayBeEvicted` | lib/ddtrace/writer.rb:72-73 | at capacity, overwriting any one of the held traces is a possible outcome of a push |
| `Datadog.RunLength` | lib/ddtrace/writer.rb:67-76 | after `k` pushes the buffer holds `min(initial + k, max_size)` traces, so it never exceeds `max_size` |
| `Datadog.RunWithoutEviction` | lib/ddtrace/writer.rb:70-71 | while no push reaches capacity, the buffer is its initial contents followed by the pushed traces in arrival order |
| `Datadog.RunHoldsOnlyWritten` | lib/ddtrace/writer.rb:67-76 | every buffered trace was either there at the start or was pushed |
| `Datadog.CapacityTwoThreePushes` | lib/ddtrace/writer.rb:67-76 | capacity 2, three pushes onto an empty buffer: the result is `[t3, t2]` or `[t1, t3]`, so the third trace replaces exactly one of the first two |
| `Datadog.TraceBuffer.constructor` | lib/ddtrace/writer.rb:61-65 | a new buffer is empty and has the given positive capacity |
| `Datadog.TraceBuffer.Push` | lib/ddtrace/writer.rb:67-76 | the new contents are the old ones with the trace appended when below `max_size`, otherwise the old ones with one slot in range overwritten; the capacity bound is kept |
| `Datadog.TraceBuffer.Length` | lib/ddtrace/writer.rb:78-82 | the reported length never exceeds `max_size` |
| `Datadog.TraceBuffer.Pop` | lib/ddtrace/writer.rb:84-91 | returns exactly the traces held before, in order, and leaves the buffer empty; an empty buffer gives back an empty list and stays empty |
| `Datadog.Writer.constructor` | lib/ddtrace/writer.rb:10-15 | a new writer uses the given transport, owns a fresh empty buffer of capacity 100, and has flushed nothing |
| `Datadog.Writer.Flush` | lib/ddtrace/writer.rb:31-40 | the buffer is empty afterwards. If it was empty, there is no transport call and the counter is unchanged. Otherwise there is exactly one transport call, with the in-order flattening of the drained traces, and the counter grows by the number of traces drained when the send succeeded and is unchanged when it failed. The accounting invariant is kept |
| `Datadog.Writer.Write` | lib/ddtrace/writer.rb:43-45 | the buffer changes exactly as one push of the trace; the flushed counter is unchanged and one more trace has been written |
| `Datadog.Writer.Stats` | lib/ddtrace/writer.rb:48-53 | reads without changing state; the buffered count is at most 100, and flushed plus buffered never exceeds the traces written |
| `Datadog.FiveWritesThenFlush` | lib/ddtrace/writer.rb:31-52 | five writes to a fresh writer and one flush send one batch, the five traces' spans in order; stats then read 5 flushed and 0 buffered, or 0 and 0 if the send failed |
| `Transports.RecordingTransport.Write` | lib/ddtrace/writer.rb:37 | each call to the transport appends exactly the batch passed to it to the log of calls |

## Left out

- The background flush thread (`spawn`, `Thread.new`, `loop`, `sleep`, the flush interval of 1, lines 14, 17, 21-28). It is about concurrency and timing. `Flush` is a method called explicitly instead.
- The `Mutex` and `synchronize` blocks (lines 62, 68, 79, 85). Each buffer operation is treated as one atomic step, and calls are sequential. The unsynchronised counter update on line 38 only matters under concurrency.
- The default transport, `Datadog::Transport.new("localhost", "7777")` (line 11). It is network I/O, and `ddtrace/transport.rb` is not part of this model. The writer takes a `RecordingTransport`, which logs every batch it receives. A failed send is still logged, as an attempted call.
- Real randomness and any uniformity of eviction (`rand(len)`, line 73). The model only says that some slot in range is overwritten, and that any slot is possible.
- `TraceBuffer` with `max_size <= 0`. In Ruby, `rand(0)` returns a Float, so line 73 would then behave differently. The constructor requires a positive capacity, and the writer uses only 100.
- Exceptions as such. A raising `@transport.write` is modelled as `Flush` returning `ok == false`. The model does not model the exception leaving `flush` and ending the flush thread.
- Datadog.TraceBuffer.Length: the contract states only the capacity bound; that the value is the number of held traces comes from its body, which is visible to callers.
- Ruby's `Array#flatten` flattens nested arrays at every depth. Spans are opaque values, not arrays, so this is the one-level concatenation `Flatten`.
- Aliasing, in both directions. Traces are values (`seq`). Ruby buffers the caller's trace array by reference (`<<` on line 71, `[]=` on line 73), and `flatten` reads it only at flush time, so a caller who changes a trace after `write` changes the batch that is later sent; the model sends the trace as it was written. Likewise nothing the caller does with the list `pop` returns can reach the new buffer, which the model gets for free.
- The return values of `push`, `write` and `flush` in Ruby. The only caller in `writer.rb`, the flush loop on line 25, discards `flush`'s result. `flush`'s result here is only the send outcome.
