/** What each routine of the driver `SDCard` (sdcard.py) does to the hardware, as a function
    from the hardware's state before the call to its state after it and the routine's result.
    The methods of `SdCard.SDCard` are proved to behave exactly as these functions say; the
    lemmas in the *_props files prove what the driver promises about them.

    A Python `raise OSError(…)` is a `Fail` outcome carrying the `Error` that names it; the
    hardware state in the result is the state at the moment of the raise. */
module Protocol {
  import opened Bytes
  import opened SimBus
  import CommandFrame
  import Csd

  const CMD_TIMEOUT: nat := 100          // _CMD_TIMEOUT: R1 polls per command
  const READY_TIMEOUT: nat := 500        // default `timeout` of _wait_ready, in ms
  const TOKEN_TIMEOUT: nat := 1000       // data-token wait of _readinto, in ms
  const ACMD41_TRIES: nat := 1000        // iterations of the ACMD41 loop
  const INIT_BAUDRATE: nat := 100_000    // bus speed during initialisation
  const DEFAULT_BAUDRATE: nat := 1_000_000
  const BLOCK_SIZE: nat := 512

  const TOKEN_CMD25: byte := 0xFC        // start of a block in a multi-block write
  const TOKEN_STOP_TRAN: byte := 0xFD    // end of a multi-block write
  const TOKEN_DATA: byte := 0xFE         // start of a data block

  const R1_IDLE_STATE: int := 1
  const R1_ILLEGAL_COMMAND: nat := 2     // the bit number of _R1_ILLEGAL_COMMAND = 4

  /** The `OSError`s the driver raises. */
  datatype Error =
    | NoCard              // "no SD card (CMD0)"
    | Acmd41Timeout       // "timeout waiting for ACMD41"
    | Cmd16Failed         // "CMD16 failed"
    | ReadError(cmd: nat)   // "read error (CMD17)" / "read error (CMD18)"
    | WriteError(cmd: nat)  // "write error (CMD24)" / "write error (CMD25)"
    | DataTokenTimeout    // "timeout waiting for data token"
    | DataRejected        // "data rejected"
    | WriteTimeout        // "timeout after write"

  datatype Outcome = Done | Fail(err: Error)

  /** The hardware after a routine, with the routine's result. */
  datatype Flag = Flag(w: Wire, ok: bool)
  datatype Resp = Resp(w: Wire, r: int)
  datatype After = After(w: Wire, out: Outcome)
  datatype Data = Data(w: Wire, data: seq<byte>, out: Outcome)
  datatype Card = Card(w: Wire, cdv: nat, out: Outcome)
  datatype Count = Count(w: Wire, out: Outcome, blocks: nat)

  // ---------------------------------------------------------------- polling

  /** The `while True` loop of `_wait_ready`, once the clock read `start`: read a byte, stop with
      true on 0xFF, stop with false once `timeout` ticks have passed. */
  function WaitLoop(w: Wire, start: nat, timeout: nat): Flag
    requires start <= w.now <= start + timeout
    decreases start + timeout - w.now
  {
    var w' := Exchange(w, 1, 0xFF);
    if Peek(w.miso, 0) == 0xFF then Flag(w', true)
    else if w'.now - start >= timeout then Flag(w', false)
    else WaitLoop(w', start, timeout)
  }

  /** `_wait_ready(timeout)`. */
  function WaitReady(w: Wire, timeout: nat := READY_TIMEOUT): Flag {
    WaitLoop(w, w.now, timeout)
  }

  /** The `for _ in range(_CMD_TIMEOUT)` loop of `_cmd` with `budget` polls left. */
  function PollR1(w: Wire, budget: nat): Resp
    decreases budget
  {
    if budget == 0 then Resp(w, -1)
    else
      var w' := Exchange(w, 1, 0xFF);
      if Peek(w.miso, 0) < 0x80 then Resp(w', Peek(w.miso, 0))
      else PollR1(w', budget - 1)
  }

  // ---------------------------------------------------------------- commands

  /** `_cmd(cmd, arg, crc)`: deselect, one padding byte, select, wait until the card is not busy
      (the result of that wait is ignored), send the frame, poll for R1. */
  function Cmd(w: Wire, cmd: byte, arg: nat, crc: byte := 0x95): Resp {
    var w1 := Exchange(SetCsLevel(w, true), 1, 0xFF);
    var w2 := WaitReady(SetCsLevel(w1, false)).w;
    PollR1(Send(w2, CommandFrame.Frame(cmd, arg, crc)), CMD_TIMEOUT)
  }

  /** `_cmd_nodata(cmd, arg)`: `_cmd` with the default CRC, then deselect. */
  function CmdNoData(w: Wire, cmd: byte, arg: nat): Resp {
    var c := Cmd(w, cmd, arg);
    Resp(SetCsLevel(c.w, true), c.r)
  }

  // ---------------------------------------------------------------- data blocks

  /** The token wait of `_readinto`, once the clock read `start`: read a byte, stop with true on
      0xFE, stop with false once more than `timeout` ticks have passed. */
  function TokenLoop(w: Wire, start: nat, timeout: nat): Flag
    requires start <= w.now <= start + timeout
    decreases start + timeout - w.now
  {
    var w' := Exchange(w, 1, 0xFF);
    if Peek(w.miso, 0) == TOKEN_DATA then Flag(w', true)
    else if w'.now - start > timeout then Flag(w', false)
    else TokenLoop(w', start, timeout)
  }

  /** `_readinto(buf)` for a buffer of n bytes: wait for the data token, fill the buffer, read
      and discard the two CRC bytes. `data` is what ends up in the buffer (nothing on a raise). */
  function ReadInto(w: Wire, n: nat): (d: Data)
    ensures |d.data| == if d.out.Done? then n else 0
  {
    var t := TokenLoop(w, w.now, TOKEN_TIMEOUT);
    if !t.ok then Data(t.w, [], Fail(DataTokenTimeout))
    else Data(Exchange(Fill(t.w, n, 0xFF), 2, 0xFF), Take(t.w.miso, n), Done)
  }

  /** `_write_token(token)`. */
  function WriteToken(w: Wire, token: byte): Wire {
    Send(w, [token])
  }

  /** `_write(buf)`: the data token, the data, two dummy CRC bytes, then the data response,
      which must read `xxx00101` (accepted), then a busy wait. */
  function Write(w: Wire, data: seq<byte>): After {
    var w1 := Send(Send(WriteToken(w, TOKEN_DATA), data), [0xFF, 0xFF]);
    var resp := Peek(w1.miso, 0);
    var w2 := Exchange(w1, 1, 0xFF);
    if resp % 32 != 0x05 then After(w2, Fail(DataRejected))
    else
      var ready := WaitReady(w2);
      if !ready.ok then After(ready.w, Fail(WriteTimeout)) else After(ready.w, Done)
  }

  // ---------------------------------------------------------------- initialisation

  /** Slow clock, deselect, and ten `0xFF` bytes (80 clocks) to let the card power up. */
  function PowerUp(w: Wire): Wire {
    DummyBytes(SetCsLevel(Reconfigure(w, INIT_BAUDRATE), true), 10)
  }

  function DummyBytes(w: Wire, k: nat): Wire
    decreases k
  {
    if k == 0 then w else DummyBytes(Send(w, [0xFF]), k - 1)
  }

  /** CMD0, GO_IDLE_STATE. */
  function Reset(w: Wire): Resp {
    Cmd(w, 0, 0, 0x95)
  }

  /** Python's `not (r & _R1_ILLEGAL_COMMAND)` for the CMD8 response `r` (an int, possibly -1). */
  predicate EchoFollows(r: int) {
    !TestBit(r, R1_ILLEGAL_COMMAND)
  }

  /** CMD8, SEND_IF_COND, and the 4-byte echo it may be followed by (read and discarded). */
  function IfCond(w: Wire): Wire {
    var c := Cmd(w, 8, 0x1AA, 0x87);
    if EchoFollows(c.r) then Exchange(c.w, 4, 0xFF) else c.w
  }

  /** One pass of the ACMD41 loop: CMD55, then CMD41 with HCS set; the CMD41 response. */
  function Acmd41(w: Wire): Resp {
    Cmd(Cmd(w, 55, 0, 0x65).w, 41, 0x4000_0000, 0x77)
  }

  /** A retry loop with `tries` passes left, one pass being `step`: a pass answered 0 ends it
      with true, any other answer is followed by a 1 ms sleep and the next pass. */
  function Retry(step: Wire -> Resp, w: Wire, tries: nat): Flag
    decreases tries
  {
    if tries == 0 then Flag(w, false)
    else
      var a := step(w);
      if a.r == 0 then Flag(a.w, true) else Retry(step, Delay(a.w, 1), tries - 1)
  }

  /** The ACMD41 loop with `tries` passes left; true when CMD41 answered 0. */
  function Acmd41Loop(w: Wire, tries: nat): Flag {
    Retry(Acmd41, w, tries)
  }

  /** A pass of the ACMD41 loop with `rest + 1` passes to go: an accepted pass ends it, a
      refused one leaves `rest` passes after the sleep. */
  lemma Acmd41LoopStep(w: Wire, rest: nat)
    ensures var a := Acmd41(w);
      Acmd41Loop(w, rest + 1) == if a.r == 0 then Flag(a.w, true) else Acmd41Loop(Delay(a.w, 1), rest)
  {
  }

  /** CMD58, READ_OCR: the addressing multiplier `cdv`. */
  function ReadOcr(w: Wire): Card {
    var c := Cmd(w, 58, 0, 0xFD);
    if c.r == 0 then
      var cdv := if TestBit(Peek(c.w.miso, 0), 6) then 1 else 512;
      Card(Fill(c.w, 4, 0xFF), cdv, Done)
    else Card(c.w, 512, Done)
  }

  /** CMD16, SET_BLOCKLEN 512. */
  function SetBlockLen(w: Wire): Resp {
    Cmd(w, 16, 512, 0x15)
  }

  /** `_init_card()`, on a driver whose `cdv` is `cdv` and whose working speed is `baudrate`. */
  function InitCard(w: Wire, cdv: nat, baudrate: nat): Card {
    var r0 := Reset(PowerUp(w));
    if r0.r != R1_IDLE_STATE && r0.r != 0 then Card(r0.w, cdv, Fail(NoCard))
    else
      var a := Acmd41Loop(IfCond(r0.w), ACMD41_TRIES);
      if !a.ok then Card(a.w, cdv, Fail(Acmd41Timeout))
      else
        var o := ReadOcr(a.w);
        if o.cdv == 512 then
          var r16 := SetBlockLen(o.w);
          if r16.r != 0 then Card(r16.w, o.cdv, Fail(Cmd16Failed))
          else Card(Reconfigure(r16.w, baudrate), o.cdv, Done)
        else Card(Reconfigure(o.w, baudrate), o.cdv, Done)
  }

  // ---------------------------------------------------------------- block I/O

  /** The receive loop of a CMD18 read with `k` data blocks of 512 bytes still to come, after
      `got` has been received; `data` is everything received until the end or the first raise. */
  function RecvBlocks(w: Wire, k: nat, got: seq<byte>): (d: Data)
    ensures |got| <= |d.data| <= |got| + BLOCK_SIZE * k
    decreases k
  {
    if k == 0 then Data(w, got, Done)
    else
      var b := ReadInto(w, BLOCK_SIZE);
      if b.out.Fail? then Data(b.w, got, b.out)
      else RecvBlocks(b.w, k - 1, got + b.data)
  }

  /** A receive loop with `rest + 1` blocks to go receives one block, then stops on a raise
      or goes on with `rest`. */
  lemma RecvBlocksStep(w: Wire, rest: nat, got: seq<byte>)
    ensures var b := ReadInto(w, BLOCK_SIZE);
      RecvBlocks(w, rest + 1, got)
        == if b.out.Fail? then Data(b.w, got, b.out) else RecvBlocks(b.w, rest, got + b.data)
  {
  }

  /** A receive loop keeps what was received before it and adds whole blocks, all `k` of them
      when it completes. */
  lemma {:induction false} RecvBlocksShape(w: Wire, k: nat, got: seq<byte>)
    ensures var d := RecvBlocks(w, k, got);
      d.data[..|got|] == got
      && (|d.data| - |got|) % BLOCK_SIZE == 0
      && (d.out.Done? ==> |d.data| == |got| + BLOCK_SIZE * k)
    decreases k
  {
    if k > 0 {
      var b := ReadInto(w, BLOCK_SIZE);
      if b.out.Done? {
        RecvBlocksShape(b.w, k - 1, got + b.data);
        var d := RecvBlocks(b.w, k - 1, got + b.data);
        assert d.data[..|got|] == (got + b.data)[..|got|];
      }
    }
  }

  /** `readblocks(block_num, buf)` for a buffer of `len` bytes: `data` is what is written into
      the buffer, from its start. */
  function ReadBlocks(w: Wire, cdv: nat, blockNum: nat, len: nat): (d: Data)
    ensures |d.data| <= len
  {
    var nblocks := len / BLOCK_SIZE;
    var addr := blockNum * cdv;
    if nblocks == 1 then
      var c := Cmd(w, 17, addr, 0xFF);
      if c.r != 0 then Data(c.w, [], Fail(ReadError(17)))
      else ReadInto(c.w, len)
    else
      var c := Cmd(w, 18, addr, 0xFF);
      if c.r != 0 then Data(c.w, [], Fail(ReadError(18)))
      else
        var b := RecvBlocks(c.w, nblocks, []);
        if b.out.Fail? then b
        else Data(CmdNoData(b.w, 12, 0).w, b.data, Done)
  }

  /** A send loop from byte `offset` of `data` on with `k` chunks still to go, one chunk
      `data[offset .. offset + 512]` being written by `put`; it stops at the first raise. */
  function SendLoop(put: (Wire, seq<byte>) -> After, w: Wire, data: seq<byte>, offset: nat, k: nat): After
    requires offset + BLOCK_SIZE * k <= |data|
    decreases k
  {
    if k == 0 then After(w, Done)
    else
      var a := put(w, data[offset..offset + BLOCK_SIZE]);
      if a.out.Fail? then a else SendLoop(put, a.w, data, offset + BLOCK_SIZE, k - 1)
  }

  /** The send loop of a CMD25 write: each chunk goes out as `PutBlock`. */
  function SendBlocks(w: Wire, data: seq<byte>, offset: nat, k: nat): After
    requires offset + BLOCK_SIZE * k <= |data|
  {
    SendLoop(PutBlock, w, data, offset, k)
  }

  /** A send loop with `rest + 1` chunks to go writes one chunk, then stops on a raise or
      goes on with `rest`. */
  lemma SendBlocksStep(w: Wire, data: seq<byte>, offset: nat, rest: nat)
    requires offset + BLOCK_SIZE * (rest + 1) <= |data|
    ensures var a := PutBlock(w, data[offset..offset + BLOCK_SIZE]);
      SendBlocks(w, data, offset, rest + 1)
        == if a.out.Fail? then a else SendBlocks(a.w, data, offset + BLOCK_SIZE, rest)
  {
  }

  /** One block of a CMD25 write: the 0xFC start token, then `_write`. */
  function PutBlock(w: Wire, block: seq<byte>): After {
    Write(WriteToken(w, TOKEN_CMD25), block)
  }

  /** Deselect and one padding byte, at the end of `writeblocks`. */
  function Release(w: Wire): Wire {
    Exchange(SetCsLevel(w, true), 1, 0xFF)
  }

  /** `writeblocks(block_num, buf)` for the contents `data` of the buffer. */
  function WriteBlocks(w: Wire, cdv: nat, blockNum: nat, data: seq<byte>): After {
    var nblocks := |data| / BLOCK_SIZE;
    var addr := blockNum * cdv;
    if nblocks == 1 then
      var c := Cmd(w, 24, addr, 0xFF);
      if c.r != 0 then After(c.w, Fail(WriteError(24)))
      else
        var a := Write(c.w, data);
        if a.out.Fail? then a else After(Release(a.w), Done)
    else
      var c := Cmd(w, 25, addr, 0xFF);
      if c.r != 0 then After(c.w, Fail(WriteError(25)))
      else
        var s := SendBlocks(c.w, data, 0, nblocks);
        if s.out.Fail? then s else After(Release(WriteToken(s.w, TOKEN_STOP_TRAN)), Done)
  }

  // ---------------------------------------------------------------- capacity

  /** `ioctl(op, arg)`: for op 4 the block count from the CSD register, 0 otherwise or when
      CMD9 fails; a missing data token still raises. */
  function Ioctl(w: Wire, op: int): Count {
    if op != 4 then Count(w, Done, 0)
    else
      var c := Cmd(w, 9, 0, 0xFF);
      if c.r != 0 then Count(c.w, Done, 0)
      else
        var d := ReadInto(c.w, 16);
        if d.out.Fail? then Count(d.w, d.out, 0)
        else Count(SetCsLevel(d.w, true), Done, Csd.BlockCount(d.data))
  }
}
