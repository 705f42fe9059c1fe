/** Views of the hardware log: the payloads the driver wrote and the buffers it filled, in order,
    and the proof that the views a `Wire` keeps are exactly these. */
module Trace {
  import opened Bytes
  import opened SimBus

  /** The payload of every `spi.write` in `log`, in order. */
  function Sent(log: seq<Event>): seq<seq<byte>> {
    if log == [] then []
    else Sent(log[..|log| - 1]) + (if log[|log| - 1].Tx? then [log[|log| - 1].data] else [])
  }

  /** What every `spi.readinto` in `log` stored, in order. */
  function Fills(log: seq<Event>): seq<seq<byte>> {
    if log == [] then []
    else Fills(log[..|log| - 1]) + (if log[|log| - 1].RxFill? then [log[|log| - 1].got] else [])
  }

  lemma SentAppend(log: seq<Event>, e: Event)
    ensures Sent(log + [e]) == Sent(log) + (if e.Tx? then [e.data] else [])
    ensures Fills(log + [e]) == Fills(log) + (if e.RxFill? then [e.got] else [])
  {
    assert (log + [e])[..|log|] == log;
  }

  /** The `sent` and `filled` views a wire keeps are those of its log. */
  predicate Recorded(w: Wire) {
    w.sent == Sent(w.log) && w.filled == Fills(w.log)
  }

  /** A fresh bus, and every transition of the bus, keep the views in step with the log. */
  lemma FreshRecorded(script: seq<byte>, baud: nat)
    ensures Recorded(Wire(script, [], [], [], true, baud, 0))
  {
  }

  lemma ExchangeRecorded(w: Wire, n: nat, fill: byte)
    requires Recorded(w)
    ensures Recorded(Exchange(w, n, fill))
  {
    SentAppend(w.log, RxPoll(fill, Take(w.miso, n)));
  }

  lemma FillRecorded(w: Wire, n: nat, fill: byte)
    requires Recorded(w)
    ensures Recorded(Fill(w, n, fill))
  {
    SentAppend(w.log, RxFill(fill, Take(w.miso, n)));
  }

  lemma SendRecorded(w: Wire, data: seq<byte>)
    requires Recorded(w)
    ensures Recorded(Send(w, data))
  {
    SentAppend(w.log, Tx(data));
  }

  lemma CsRecorded(w: Wire, high: bool)
    requires Recorded(w)
    ensures Recorded(SetCsLevel(w, high))
  {
    SentAppend(w.log, CsLevel(high));
  }

  lemma BaudRecorded(w: Wire, rate: nat)
    requires Recorded(w)
    ensures Recorded(Reconfigure(w, rate))
  {
    SentAppend(w.log, Baud(rate));
  }

  lemma DelayRecorded(w: Wire, ms: nat)
    requires Recorded(w)
    ensures Recorded(Delay(w, ms))
  {
    SentAppend(w.log, Sleep(ms));
  }

  /** All the byte strings of `ss`, one after the other. */
  function Flatten(ss: seq<seq<byte>>): seq<byte> {
    if ss == [] then [] else Flatten(ss[..|ss| - 1]) + ss[|ss| - 1]
  }

  lemma {:induction false} FlattenAppend(a: seq<seq<byte>>, b: seq<seq<byte>>)
    ensures Flatten(a + b) == Flatten(a) + Flatten(b)
    decreases |b|
  {
    if b == [] {
      assert a + b == a;
    } else {
      var n := |b| - 1;
      assert (a + b)[..|a + b| - 1] == a + b[..n];
      FlattenAppend(a, b[..n]);
    }
  }
}
