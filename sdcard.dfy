/** The driver class `SDCard` of sdcard.py, over the simulated hardware of `SimBus`.
    Every method is proved to do to the hardware (and to its own fields and the caller's
    buffer) exactly what the matching function of `Protocol` says. */
module SdCard {
  import opened Bytes
  import opened SimBus
  import CommandFrame
  import Csd
  import Protocol
  import InitProps

  class SDCard {
    const bus: Bus          // the SPI bus and the chip-select pin
    const baudrate: nat     // the working bus speed
    var cdv: nat            // 512 for byte-addressed cards, 1 for block-addressed ones

    /** `SDCard(spi, cs, baudrate)` up to its final call of `_init_card()`: chip select is
        configured as an output driven high. */
    constructor (bus: Bus, baudrate: nat := Protocol.DEFAULT_BAUDRATE)
      modifies bus
      ensures this.bus == bus && this.baudrate == baudrate && cdv == 512
      ensures bus.State() == SetCsLevel(old(bus.State()), true)
    {
      this.bus := bus;
      this.baudrate := baudrate;
      cdv := 512;
      new;
      bus.SetCs(true);
    }

    /** The whole of `SDCard(spi, cs, baudrate)`: construction, then `_init_card()`. When the
        outcome is a failure the Python constructor raises and no card object is handed out. */
    static method Open(bus: Bus, baudrate: nat := Protocol.DEFAULT_BAUDRATE)
      returns (card: SDCard, out: Protocol.Outcome)
      modifies bus
      ensures fresh(card) && card.bus == bus && card.baudrate == baudrate
      ensures var c := Protocol.InitCard(SetCsLevel(old(bus.State()), true), 512, baudrate);
        bus.State() == c.w && card.cdv == c.cdv && out == c.out
      ensures card.cdv == 1 || card.cdv == 512
    {
      card := new SDCard(bus, baudrate);
      out := card.InitCard();
    }

    // --- low-level helpers ---

    method InitSpi(rate: nat)
      modifies bus
      ensures bus.State() == Reconfigure(old(bus.State()), rate)
    {
      bus.Init(rate);
    }

    method Select()
      modifies bus
      ensures bus.State() == SetCsLevel(old(bus.State()), false)
    {
      bus.SetCs(false);
    }

    method Deselect()
      modifies bus
      ensures bus.State() == SetCsLevel(old(bus.State()), true)
    {
      bus.SetCs(true);
    }

    method WaitReady(timeout: nat := Protocol.READY_TIMEOUT) returns (ok: bool)
      modifies bus
      ensures Protocol.WaitReady(old(bus.State()), timeout) == Protocol.Flag(bus.State(), ok)
    {
      var start := bus.now;
      while true
        invariant start <= bus.now <= start + timeout
        invariant Protocol.WaitLoop(bus.State(), start, timeout)
               == Protocol.WaitReady(old(bus.State()), timeout)
        decreases start + timeout - bus.now
      {
        var b := bus.Read(1, 0xFF);
        if b[0] == 0xFF {
          return true;
        }
        if bus.now - start >= timeout {
          return false;
        }
      }
    }

    method Cmd(cmd: byte, arg: nat, crc: byte := 0x95) returns (r: int)
      modifies bus
      ensures Protocol.Cmd(old(bus.State()), cmd, arg, crc) == Protocol.Resp(bus.State(), r)
    {
      Deselect();
      var _ := bus.Read(1, 0xFF);
      Select();
      var _ := WaitReady();
      WriteFrame(cmd, arg, crc);

      ghost var sent := bus.State();
      for i := 0 to Protocol.CMD_TIMEOUT
        invariant Protocol.PollR1(bus.State(), Protocol.CMD_TIMEOUT - i)
               == Protocol.PollR1(sent, Protocol.CMD_TIMEOUT)
      {
        var b := bus.Read(1, 0xFF);
        if b[0] < 0x80 {
          return b[0];
        }
      }
      return -1;
    }

    /** The frame of `_cmd`, built in a 6-byte buffer and written in one transfer. */
    method WriteFrame(cmd: byte, arg: nat, crc: byte)
      modifies bus
      ensures bus.State() == Send(old(bus.State()), CommandFrame.Frame(cmd, arg, crc))
    {
      var buf := new byte[6];
      buf[0] := CommandFrame.WithStartBits(cmd);
      buf[1] := (arg / 0x100_0000) % 256;
      buf[2] := (arg / 0x1_0000) % 256;
      buf[3] := (arg / 0x100) % 256;
      buf[4] := arg % 256;
      buf[5] := crc;
      assert buf[..] == CommandFrame.Frame(cmd, arg, crc);

      bus.Write(buf[..]);
    }

    method CmdNoData(cmd: byte, arg: nat) returns (r: int)
      modifies bus
      ensures Protocol.CmdNoData(old(bus.State()), cmd, arg) == Protocol.Resp(bus.State(), r)
    {
      r := Cmd(cmd, arg);
      Deselect();
    }

    // --- card init sequence ---

    method InitCard() returns (out: Protocol.Outcome)
      modifies bus, this`cdv
      ensures var c := Protocol.InitCard(old(bus.State()), old(cdv), baudrate);
        bus.State() == c.w && cdv == c.cdv && out == c.out
      ensures old(cdv == 1 || cdv == 512) ==> cdv == 1 || cdv == 512
    {
      ghost var w0 := bus.State();
      ghost var cdv0 := cdv;
      InitProps.InitCardCdv(w0, cdv0, baudrate);
      PowerUp();

      // CMD0: GO_IDLE_STATE
      var r := Cmd(0, 0, 0x95);
      if r != Protocol.R1_IDLE_STATE && r != 0 {
        return Protocol.Fail(Protocol.NoCard);
      }

      SendIfCond();

      var ready := AwaitReady(Protocol.ACMD41_TRIES);
      if !ready {
        return Protocol.Fail(Protocol.Acmd41Timeout);
      }

      ReadOcr();

      // CMD16: SET_BLOCKLEN 512 for byte-addressed cards
      if cdv == 512 {
        r := Cmd(16, 512, 0x15);
        if r != 0 {
          return Protocol.Fail(Protocol.Cmd16Failed);
        }
      }

      // switch to the working speed
      InitSpi(baudrate);
      return Protocol.Done;
    }

    /** The start of `_init_card`: slow clock, deselect, 80 dummy clocks. */
    method PowerUp()
      modifies bus
      ensures bus.State() == Protocol.PowerUp(old(bus.State()))
    {
      InitSpi(Protocol.INIT_BAUDRATE);
      Deselect();
      for i := 0 to 10
        invariant Protocol.DummyBytes(bus.State(), 10 - i) == Protocol.PowerUp(old(bus.State()))
      {
        bus.Write([0xFF]);
      }
    }

    /** CMD8 of `_init_card`, and the read of the 4-byte echo unless the card reported the
        command illegal. */
    method SendIfCond()
      modifies bus
      ensures bus.State() == Protocol.IfCond(old(bus.State()))
    {
      var r := Cmd(8, 0x1AA, 0x87);
      if Protocol.EchoFollows(r) {
        var _ := bus.Read(4, 0xFF);
      }
    }

    /** CMD58 of `_init_card` and the choice of `cdv` from the OCR. */
    method ReadOcr()
      modifies bus, this`cdv
      ensures var o := Protocol.ReadOcr(old(bus.State()));
        bus.State() == o.w && cdv == o.cdv
    {
      var r := Cmd(58, 0, 0xFD);
      var ocr := new byte[4];
      if r == 0 {
        bus.ReadInto(ocr, 0, 4, 0xFF);
        if TestBit(ocr[0], 6) {
          cdv := 1;
        } else {
          cdv := 512;
        }
      } else {
        cdv := 512;
      }
    }

    /** The loop `for _ in range(1000)` of `_init_card`, for `tries` passes: CMD55 and CMD41
        until CMD41 answers 0, with a 1 ms sleep after every refusal; false when every pass was
        refused. */
    method AwaitReady(tries: nat) returns (ready: bool)
      modifies bus
      ensures Protocol.Acmd41Loop(old(bus.State()), tries) == Protocol.Flag(bus.State(), ready)
    {
      ghost var goal := Protocol.Acmd41Loop(bus.State(), tries);
      var left := tries;
      while left > 0
        invariant Protocol.Acmd41Loop(bus.State(), left) == goal
      {
        ghost var before := bus.State();
        var accepted := Pass();
        if accepted {
          return true;
        }
        var rest := left - 1;
        Protocol.Acmd41LoopStep(before, rest);
        left := rest;
      }
      return false;
    }

    /** One pass of that loop: ACMD41, then, while the card is still idle, the 1 ms sleep. */
    method Pass() returns (accepted: bool)
      modifies bus
      ensures var a := Protocol.Acmd41(old(bus.State()));
        accepted == (a.r == 0) && bus.State() == if accepted then a.w else Delay(a.w, 1)
    {
      var r := Acmd41();
      if r == 0 {
        return true;
      }
      bus.SleepMs(1);
      accepted := false;
    }

    /** One pass of that loop: CMD55 (APP_CMD), then CMD41 with the HCS bit set. */
    method Acmd41() returns (r: int)
      modifies bus
      ensures Protocol.Acmd41(old(bus.State())) == Protocol.Resp(bus.State(), r)
    {
      var _ := Cmd(55, 0, 0x65);
      r := Cmd(41, 0x4000_0000, 0x77);
    }

    // --- block read/write API ---

    method ReadBlocks(blockNum: nat, buf: array<byte>) returns (out: Protocol.Outcome)
      modifies bus, buf
      ensures var d := Protocol.ReadBlocks(old(bus.State()), cdv, blockNum, buf.Length);
        bus.State() == d.w && out == d.out && buf[..] == d.data + old(buf[..])[|d.data|..]
    {
      ghost var w0 := bus.State();
      var nblocks := buf.Length / Protocol.BLOCK_SIZE;
      var addr := blockNum * cdv;

      if nblocks == 1 {
        ghost var c := Protocol.Cmd(w0, 17, addr, 0xFF);
        var r := Cmd(17, addr, 0xFF);
        if r != 0 {
          return Protocol.Fail(Protocol.ReadError(17));
        }
        assert Protocol.ReadBlocks(w0, cdv, blockNum, buf.Length) == Protocol.ReadInto(c.w, buf.Length);
        out := ReadInto(buf, 0, buf.Length);
      } else {
        ghost var c := Protocol.Cmd(w0, 18, addr, 0xFF);
        var r := Cmd(18, addr, 0xFF);
        if r != 0 {
          return Protocol.Fail(Protocol.ReadError(18));
        }
        ghost var b := Protocol.RecvBlocks(c.w, nblocks, []);
        out := RecvBlocks(buf, nblocks);
        if out.Fail? {
          assert Protocol.ReadBlocks(w0, cdv, blockNum, buf.Length) == b;
          return;
        }
        var _ := CmdNoData(12, 0);
        assert Protocol.ReadBlocks(w0, cdv, blockNum, buf.Length)
          == Protocol.Data(Protocol.CmdNoData(b.w, 12, 0).w, b.data, Protocol.Done);
        out := Protocol.Done;
      }
    }

    /** The `for _ in range(nblocks)` receive loop of `readblocks`: block `i` goes to `buf[512 i ..]`. */
    method RecvBlocks(buf: array<byte>, nblocks: nat) returns (out: Protocol.Outcome)
      requires Protocol.BLOCK_SIZE * nblocks <= buf.Length
      modifies bus, buf
      ensures var d := Protocol.RecvBlocks(old(bus.State()), nblocks, []);
        bus.State() == d.w && out == d.out && buf[..] == d.data + old(buf[..])[|d.data|..]
    {
      ghost var goal := Protocol.RecvBlocks(bus.State(), nblocks, []);
      ghost var got: seq<byte> := [];
      var offset := 0;
      var left := nblocks;
      while left > 0
        invariant offset + Protocol.BLOCK_SIZE * left == Protocol.BLOCK_SIZE * nblocks
        invariant |got| == offset
        invariant Protocol.RecvBlocks(bus.State(), left, got) == goal
        invariant buf[..] == got + old(buf[..])[offset..]
      {
        ghost var before := bus.State();
        ghost var prior := buf[..];
        ghost var b := Protocol.ReadInto(before, Protocol.BLOCK_SIZE);
        var rest := left - 1;
        Protocol.RecvBlocksStep(before, rest, got);
        out := ReadInto(buf, offset, offset + Protocol.BLOCK_SIZE);
        if out.Fail? {
          return;
        }
        assert prior[..offset] == got;
        assert prior[offset + Protocol.BLOCK_SIZE..] == old(buf[..])[offset + Protocol.BLOCK_SIZE..];
        got := got + b.data;
        offset := offset + Protocol.BLOCK_SIZE;
        left := rest;
      }
      return Protocol.Done;
    }

    method WriteBlocks(blockNum: nat, buf: array<byte>) returns (out: Protocol.Outcome)
      modifies bus
      ensures var a := Protocol.WriteBlocks(old(bus.State()), cdv, blockNum, buf[..]);
        bus.State() == a.w && out == a.out
    {
      var nblocks := buf.Length / Protocol.BLOCK_SIZE;
      var addr := blockNum * cdv;

      if nblocks == 1 {
        var r := Cmd(24, addr, 0xFF);
        if r != 0 {
          return Protocol.Fail(Protocol.WriteError(24));
        }
        out := Write(buf[..]);
        if out.Fail? {
          return;
        }
      } else {
        var r := Cmd(25, addr, 0xFF);
        if r != 0 {
          return Protocol.Fail(Protocol.WriteError(25));
        }
        out := SendBlocks(buf, nblocks);
        if out.Fail? {
          return;
        }
        WriteToken(Protocol.TOKEN_STOP_TRAN);
      }

      Deselect();
      var _ := bus.Read(1, 0xFF);
      out := Protocol.Done;
    }

    /** The `for _ in range(nblocks)` send loop of `writeblocks`: chunk `i` is `buf[512 i .. 512 (i + 1)]`. */
    method SendBlocks(buf: array<byte>, nblocks: nat) returns (out: Protocol.Outcome)
      requires Protocol.BLOCK_SIZE * nblocks <= buf.Length
      modifies bus
      ensures Protocol.SendBlocks(old(bus.State()), buf[..], 0, nblocks) == Protocol.After(bus.State(), out)
    {
      ghost var data := buf[..];
      ghost var goal := Protocol.SendBlocks(bus.State(), data, 0, nblocks);
      var offset := 0;
      var left := nblocks;
      while left > 0
        invariant offset + Protocol.BLOCK_SIZE * left == Protocol.BLOCK_SIZE * nblocks
        invariant Protocol.SendBlocks(bus.State(), data, offset, left) == goal
      {
        ghost var before := bus.State();
        var rest := left - 1;
        Protocol.SendBlocksStep(before, data, offset, rest);
        var block := buf[offset..offset + Protocol.BLOCK_SIZE];
        assert block == data[offset..offset + Protocol.BLOCK_SIZE];
        WriteToken(Protocol.TOKEN_CMD25);
        out := Write(block);
        if out.Fail? {
          return;
        }
        offset := offset + Protocol.BLOCK_SIZE;
        left := rest;
      }
      return Protocol.Done;
    }

    /** `ioctl(op, arg)`; `out` is a failure only when `_readinto` raises. */
    method Ioctl(op: int, arg: int) returns (out: Protocol.Outcome, n: nat)
      modifies bus
      ensures var c := Protocol.Ioctl(old(bus.State()), op);
        bus.State() == c.w && out == c.out && n == c.blocks
    {
      if op == 4 {
        var r := Cmd(9, 0, 0xFF);
        if r != 0 {
          return Protocol.Done, 0;
        }
        var csd := new byte[16];
        ghost var d := Protocol.ReadInto(bus.State(), 16);
        out := ReadInto(csd, 0, 16);
        if out.Fail? {
          return out, 0;
        }
        assert csd[..] == d.data;
        Deselect();
        return Protocol.Done, Csd.BlockCount(csd[..]);
      }
      return Protocol.Done, 0;
    }

    // --- internal data helpers ---

    /** `_readinto(buf)` for the slice `buf[lo..hi]`. */
    method ReadInto(buf: array<byte>, lo: nat, hi: nat) returns (out: Protocol.Outcome)
      requires lo <= hi <= buf.Length
      modifies bus, buf
      ensures var d := Protocol.ReadInto(old(bus.State()), hi - lo);
        bus.State() == d.w && out == d.out
      ensures out.Done? ==> buf[..] == old(buf[..lo]) + Protocol.ReadInto(old(bus.State()), hi - lo).data + old(buf[hi..])
      ensures out.Fail? ==> buf[..] == old(buf[..])
    {
      var start := bus.now;
      while true
        invariant start <= bus.now <= start + Protocol.TOKEN_TIMEOUT
        invariant Protocol.TokenLoop(bus.State(), start, Protocol.TOKEN_TIMEOUT)
               == Protocol.TokenLoop(old(bus.State()), old(bus.now), Protocol.TOKEN_TIMEOUT)
        invariant buf[..] == old(buf[..])
        decreases start + Protocol.TOKEN_TIMEOUT - bus.now
      {
        var tok := bus.Read(1, 0xFF);
        if tok[0] == Protocol.TOKEN_DATA {
          break;
        }
        if bus.now - start > Protocol.TOKEN_TIMEOUT {
          return Protocol.Fail(Protocol.DataTokenTimeout);
        }
      }
      bus.ReadInto(buf, lo, hi, 0xFF);
      var _ := bus.Read(2, 0xFF);
      return Protocol.Done;
    }

    /** `_write(buf)` for the contents `data` of the buffer slice. */
    method Write(data: seq<byte>) returns (out: Protocol.Outcome)
      modifies bus
      ensures Protocol.Write(old(bus.State()), data) == Protocol.After(bus.State(), out)
    {
      WriteToken(Protocol.TOKEN_DATA);
      bus.Write(data);
      bus.Write([0xFF, 0xFF]);
      var resp := bus.Read(1, 0xFF);
      if resp[0] % 32 != 0x05 {
        return Protocol.Fail(Protocol.DataRejected);
      }
      var ok := WaitReady();
      if !ok {
        return Protocol.Fail(Protocol.WriteTimeout);
      }
      return Protocol.Done;
    }

    method WriteToken(token: byte)
      modifies bus
      ensures bus.State() == Protocol.WriteToken(old(bus.State()), token)
    {
      bus.Write([token]);
    }
  }
}
