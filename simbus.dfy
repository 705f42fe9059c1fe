/** The hardware the driver talks to, simulated: the SPI bus (`read`, `readinto`, `write`,
    `init(baudrate=…)`), the chip-select pin and the millisecond clock, kept in one object so
    that the order of everything the driver does on them is recorded in a single log.

    The card's side of the bus is a script: the bytes it will shift out, in order. Every byte
    the driver reads takes the next byte of the script; once the script is used up the line
    reads 0xFF, as an undriven, pulled-up MISO line does. Bytes clocked in while the driver
    writes are discarded by the driver, so they are not taken from the script.

    The clock advances one tick per byte clocked over the bus and by the requested amount on a
    sleep; this is the only source of time in the model. */
module SimBus {
  import opened Bytes

  datatype Event =
    | CsLevel(high: bool)                   // cs(1) / cs(0)
    | Baud(rate: nat)                       // spi.init(baudrate=rate, …)
    | Tx(data: seq<byte>)                   // spi.write(data)
    | RxPoll(fill: byte, got: seq<byte>)    // spi.read(n, fill) returned got
    | RxFill(fill: byte, got: seq<byte>)    // spi.readinto(buf, fill) stored got
    | Sleep(ms: nat)                        // time.sleep_ms(ms)

  /** Everything observable about the hardware, as a value: besides the full log it keeps
      the two views of it the driver's promises are about, the payload of every `spi.write`
      (`sent`) and what every `spi.readinto` stored (`filled`), each in order. */
  datatype Wire = Wire(miso: seq<byte>, log: seq<Event>, sent: seq<seq<byte>>,
                       filled: seq<seq<byte>>, csHigh: bool, baud: nat, now: nat)

  /** The i-th byte the card shifts out from here on. */
  function Peek(s: seq<byte>, i: nat): byte {
    if i < |s| then s[i] else 0xFF
  }

  /** The next n bytes the card shifts out. */
  function Take(s: seq<byte>, n: nat): (r: seq<byte>)
    ensures |r| == n
  {
    if n <= |s| then s[..n] else s + Idle(n - |s|)
  }

  /** n bytes of an undriven line. */
  function Idle(n: nat): (r: seq<byte>)
    ensures |r| == n
  {
    if n == 0 then [] else Idle(n - 1) + [0xFF]
  }

  /** The script once n bytes have been read. */
  function Drop(s: seq<byte>, n: nat): seq<byte> {
    if n <= |s| then s[n..] else []
  }

  /** Reading n bytes and then i more sees the byte at n + i. */
  lemma PeekDrop(s: seq<byte>, n: nat, i: nat)
    ensures Peek(Drop(s, n), i) == Peek(s, n + i)
  {
  }

  /** `spi.read(n, fill)`. */
  function Exchange(w: Wire, n: nat, fill: byte): Wire {
    w.(miso := Drop(w.miso, n), log := w.log + [RxPoll(fill, Take(w.miso, n))], now := w.now + n)
  }

  /** `spi.readinto(buf, fill)` for a buffer of n bytes; what is stored is `Take(w.miso, n)`. */
  function Fill(w: Wire, n: nat, fill: byte): Wire {
    w.(miso := Drop(w.miso, n), log := w.log + [RxFill(fill, Take(w.miso, n))],
        filled := w.filled + [Take(w.miso, n)], now := w.now + n)
  }

  /** `spi.write(data)`. */
  function Send(w: Wire, data: seq<byte>): Wire {
    w.(log := w.log + [Tx(data)], sent := w.sent + [data], now := w.now + |data|)
  }

  /** `cs(1)` when high, `cs(0)` otherwise; also `cs.init(cs.OUT, value=1)`. */
  function SetCsLevel(w: Wire, high: bool): Wire {
    w.(csHigh := high, log := w.log + [CsLevel(high)])
  }

  /** `spi.init(baudrate=rate, polarity=0, phase=0)`. */
  function Reconfigure(w: Wire, rate: nat): Wire {
    w.(baud := rate, log := w.log + [Baud(rate)])
  }

  /** `time.sleep_ms(ms)`. */
  function Delay(w: Wire, ms: nat): Wire {
    w.(log := w.log + [Sleep(ms)], now := w.now + ms)
  }

  class Bus {
    var miso: seq<byte>
    var log: seq<Event>
    var sent: seq<seq<byte>>
    var filled: seq<seq<byte>>
    var csHigh: bool
    var baud: nat
    var now: nat

    function State(): Wire
      reads this
    {
      Wire(miso, log, sent, filled, csHigh, baud, now)
    }

    constructor (script: seq<byte>, baud: nat)
      ensures State() == Wire(script, [], [], [], true, baud, 0)
    {
      miso, log, sent, filled := script, [], [], [];
      csHigh, this.baud, now := true, baud, 0;
    }

    method Read(n: nat, fill: byte) returns (got: seq<byte>)
      modifies this
      ensures got == Take(old(miso), n)
      ensures State() == Exchange(old(State()), n, fill)
    {
      got := Take(miso, n);
      miso, log, now := Drop(miso, n), log + [RxPoll(fill, got)], now + n;
    }

    /** Stores the next `hi - lo` script bytes into `buf[lo..hi]`, as `readinto` does on a
        memoryview slice. */
    method ReadInto(buf: array<byte>, lo: nat, hi: nat, fill: byte)
      requires lo <= hi <= buf.Length
      modifies this, buf
      ensures buf[..] == old(buf[..lo]) + Take(old(miso), hi - lo) + old(buf[hi..])
      ensures State() == Fill(old(State()), hi - lo, fill)
    {
      var got := Take(miso, hi - lo);
      forall i | lo <= i < hi {
        buf[i] := got[i - lo];
      }
      assert buf[..] == old(buf[..lo]) + got + old(buf[hi..]);
      miso, log, filled := Drop(miso, hi - lo), log + [RxFill(fill, got)], filled + [got];
      now := now + (hi - lo);
    }

    method Write(data: seq<byte>)
      modifies this
      ensures State() == Send(old(State()), data)
    {
      log, sent, now := log + [Tx(data)], sent + [data], now + |data|;
    }

    method SetCs(high: bool)
      modifies this
      ensures State() == SetCsLevel(old(State()), high)
    {
      csHigh, log := high, log + [CsLevel(high)];
    }

    method Init(rate: nat)
      modifies this
      ensures State() == Reconfigure(old(State()), rate)
    {
      baud, log := rate, log + [Baud(rate)];
    }

    method SleepMs(ms: nat)
      modifies this
      ensures State() == Delay(old(State()), ms)
    {
      log, now := log + [Sleep(ms)], now + ms;
    }
  }
}
