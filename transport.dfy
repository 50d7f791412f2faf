/**
 The transport the writer hands its span batches to. The real one is a network
 client; here it is a sink that keeps a log of every batch it was asked to
 send, and whose outcome per send is not known in advance.
 */
module Transports {

  class RecordingTransport<S> {
    /** Every batch passed to `Write`, oldest first. */
    var calls: seq<seq<S>>

    constructor ()
      ensures calls == []
    {
      calls := [];
    }

    /** Attempts delivery of one batch. `ok` is false when the send failed
        (the case in which the real client raises). */
    method Write(spans: seq<S>) returns (ok: bool)
      modifies this
      ensures calls == old(calls) + [spans]
    {
      calls := calls + [spans];
      ok :| true;
    }
  }
}
