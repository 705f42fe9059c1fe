/** What the block I/O routines of the driver (sdcard.py lines 126-215) and the capacity
    query promise on the wire. */
module BlockProps {
  import opened Bytes
  import opened SimBus
  import opened Trace
  import opened CommandFrame
  import opened Protocol
  import opened PollProps
  import opened CommandProps

  // ---------------------------------------------------------------- _readinto

  /** The first data token of the script is its `m`-th byte. */
  ghost predicate FirstToken(s: seq<byte>, m: nat) {
    1 <= m && Peek(s, m - 1) == TOKEN_DATA
    && forall i :: 0 <= i < m - 1 ==> Peek(s, i) != TOKEN_DATA
  }

  /** `_readinto` succeeds exactly when 0xFE turns up within the first 1001 bytes. */
  lemma ReadIntoFinds(w: Wire, n: nat)
    ensures ReadInto(w, n).out.Done?
      <==> exists i :: 0 <= i <= TOKEN_TIMEOUT && Peek(w.miso, i) == TOKEN_DATA
  {
    var t := TokenLoop(w, w.now, TOKEN_TIMEOUT);
    TokenLoopResult(w, w.now, TOKEN_TIMEOUT);
    var m := t.w.now - w.now;
    if !t.ok {
      forall i | 0 <= i <= TOKEN_TIMEOUT
        ensures Peek(w.miso, i) != TOKEN_DATA
      {
        if i < m - 1 {
        } else {
          assert i == m - 1;
        }
      }
    }
  }

  /** What a successful `_readinto` stores and where it leaves the script: the n bytes after
      the first token, followed by two CRC bytes it discards. */
  lemma ReadIntoData(w: Wire, n: nat)
    ensures var d := ReadInto(w, n);
      d.out.Done? ==>
        exists m: nat :: m <= TOKEN_TIMEOUT + 1 && FirstToken(w.miso, m)
          && d.data == Take(Drop(w.miso, m), n) && d.w.miso == Drop(w.miso, m + n + 2)
  {
    var t := TokenLoop(w, w.now, TOKEN_TIMEOUT);
    TokenLoopResult(w, w.now, TOKEN_TIMEOUT);
    var m := t.w.now - w.now;
    if t.ok {
      assert FirstToken(w.miso, m);
      DropDrop(w.miso, m, n);
      DropDrop(w.miso, m + n, 2);
    }
  }

  /** `_readinto` (lines 190-202) succeeds exactly when a 0xFE comes within the next 1001
      bytes; the buffer then receives the `n` bytes after the first one, as one `readinto`,
      and two CRC bytes are read after them. On the timeout nothing is stored. It writes
      nothing and leaves cs and the bus speed alone. */
  lemma ReadIntoResult(w: Wire, n: nat)
    ensures var d := ReadInto(w, n);
      (d.out.Done? <==> exists i :: 0 <= i <= TOKEN_TIMEOUT && Peek(w.miso, i) == TOKEN_DATA)
      && (d.out.Fail? ==> d.out == Fail(DataTokenTimeout) && d.data == [] && d.w.filled == w.filled)
      && (d.out.Done? ==>
            exists m: nat :: m <= TOKEN_TIMEOUT + 1 && FirstToken(w.miso, m)
              && d.data == Take(Drop(w.miso, m), n) && d.w.miso == Drop(w.miso, m + n + 2))
      && (d.out.Done? ==> d.w.filled == w.filled + [d.data] && |d.data| == n)
      && d.w.sent == w.sent && d.w.csHigh == w.csHigh && d.w.baud == w.baud
  {
    ReadIntoFinds(w, n);
    ReadIntoData(w, n);
    TokenLoopQuiet(w, w.now, TOKEN_TIMEOUT);
  }

  // ---------------------------------------------------------------- readblocks

  lemma FlattenCons(x: seq<byte>, r: seq<seq<byte>>)
    ensures Flatten([x] + r) == x + Flatten(r)
  {
    FlattenAppend([x], r);
    assert [x][..0] == [];
  }

  /** The receive loop with the block read left open as `recv`; reasoning about this form
      never needs to look inside a block read. */
  function RecvLoop(recv: Wire -> Data, w: Wire, k: nat, got: seq<byte>): Data
    decreases k
  {
    if k == 0 then Data(w, got, Done)
    else
      var b := recv(w);
      if b.out.Fail? then Data(b.w, got, b.out) else RecvLoop(recv, b.w, k - 1, got + b.data)
  }

  /** One block of a CMD18 read: `_readinto` on a 512-byte slice. */
  function ReadBlock(w: Wire): Data {
    ReadInto(w, BLOCK_SIZE)
  }

  lemma {:induction false} RecvBlocksIsLoop(w: Wire, k: nat, got: seq<byte>)
    ensures RecvBlocks(w, k, got) == RecvLoop(ReadBlock, w, k, got)
    decreases k
  {
    if k > 0 {
      var b := ReadBlock(w);
      RecvBlocksIsLoop(b.w, k - 1, got + b.data);
    }
  }

  /** Where the first data token of `s` ends, counting bytes from the start, when it comes
      within the 1001 bytes `_readinto` waits (searching from byte i); 0 when it does not. */
  ghost function TokenEnd(s: seq<byte>, i: nat): nat
    decreases TOKEN_TIMEOUT + 1 - i
  {
    if i > TOKEN_TIMEOUT then 0
    else if Peek(s, i) == TOKEN_DATA then i + 1
    else TokenEnd(s, i + 1)
  }

  /** A nonzero `TokenEnd` is the end of the first token, and it is nonzero whenever a first
      token ends within the wait. */
  lemma {:induction false} TokenEndFirst(s: seq<byte>, i: nat, m: nat)
    requires forall j :: 0 <= j < i ==> Peek(s, j) != TOKEN_DATA
    ensures TokenEnd(s, i) != 0 ==>
      FirstToken(s, TokenEnd(s, i)) && TokenEnd(s, i) <= TOKEN_TIMEOUT + 1
    ensures i < m <= TOKEN_TIMEOUT + 1 && FirstToken(s, m) ==> TokenEnd(s, i) == m
    decreases TOKEN_TIMEOUT + 1 - i
  {
    if i <= TOKEN_TIMEOUT && Peek(s, i) != TOKEN_DATA {
      TokenEndFirst(s, i + 1, m);
    }
  }

  /** The script `s` starts with a data block `b`: `b` is the 512 bytes after the first 0xFE,
      which comes within 1001 bytes, and `rest` is what follows the two CRC bytes after it. */
  ghost predicate TokenBlock(s: seq<byte>, b: seq<byte>, rest: seq<byte>) {
    var m := TokenEnd(s, 0);
    m != 0 && b == Take(Drop(s, m), BLOCK_SIZE) && rest == Drop(s, m + BLOCK_SIZE + 2)
  }

  /** The script `s` starts with the data blocks `blocks`, one after the other, each found as
      `_readinto` finds it. */
  ghost predicate TokenBlocks(s: seq<byte>, blocks: seq<seq<byte>>)
    decreases |blocks|
  {
    blocks == [] ||
      (TokenBlock(s, blocks[0], Drop(s, TokenEnd(s, 0) + BLOCK_SIZE + 2))
       && TokenBlocks(Drop(s, TokenEnd(s, 0) + BLOCK_SIZE + 2), blocks[1..]))
  }

  /** A block read that writes nothing, keeps cs and the bus speed, raises only the token
      timeout, and on success stores its 512 bytes as one fill. */
  ghost predicate ReadsOneBlock(recv: Wire -> Data) {
    forall x ::
      recv(x).w.sent == x.sent && recv(x).w.csHigh == x.csHigh && recv(x).w.baud == x.baud
      && (recv(x).out.Fail? ==> recv(x).out == Fail(DataTokenTimeout) && recv(x).w.filled == x.filled)
      && (recv(x).out.Done? ==> recv(x).w.filled == x.filled + [recv(x).data] && |recv(x).data| == BLOCK_SIZE)
  }

  /** A block read whose successful result is the data block the script starts with. */
  ghost predicate FindsBlock(recv: Wire -> Data) {
    forall x :: FoundBlock(recv, x)
  }

  /** The read from `x` either times out or returns the data block `x`'s script starts with. */
  ghost predicate FoundBlock(recv: Wire -> Data, x: Wire) {
    recv(x).out.Done? ==> TokenBlock(x.miso, recv(x).data, recv(x).w.miso)
  }

  lemma ReadBlockReadsOne()
    ensures ReadsOneBlock(ReadBlock)
  {
    forall x
      ensures ReadBlock(x).w.sent == x.sent && ReadBlock(x).w.csHigh == x.csHigh
      ensures ReadBlock(x).w.baud == x.baud
      ensures ReadBlock(x).out.Fail? ==>
        ReadBlock(x).out == Fail(DataTokenTimeout) && ReadBlock(x).w.filled == x.filled
      ensures ReadBlock(x).out.Done? ==>
        ReadBlock(x).w.filled == x.filled + [ReadBlock(x).data] && |ReadBlock(x).data| == BLOCK_SIZE
    {
      ReadIntoResult(x, BLOCK_SIZE);
    }
  }

  lemma ReadBlockFindsBlock()
    ensures FindsBlock(ReadBlock)
  {
    forall x
      ensures FoundBlock(ReadBlock, x)
    {
      ReadBlockToken(x);
    }
  }

  lemma ReadBlockToken(x: Wire)
    ensures ReadBlock(x).out.Done? ==> TokenBlock(x.miso, ReadBlock(x).data, ReadBlock(x).w.miso)
  {
    ReadIntoData(x, BLOCK_SIZE);
    if ReadBlock(x).out.Done? {
      var m: nat :| m <= TOKEN_TIMEOUT + 1 && FirstToken(x.miso, m)
        && ReadBlock(x).data == Take(Drop(x.miso, m), BLOCK_SIZE)
        && ReadBlock(x).w.miso == Drop(x.miso, m + BLOCK_SIZE + 2);
      TokenEndFirst(x.miso, 0, m);
    }
  }

  lemma {:induction false} RecvLoopQuiet(recv: Wire -> Data, w: Wire, k: nat, got: seq<byte>)
    requires ReadsOneBlock(recv)
    ensures var d := RecvLoop(recv, w, k, got);
      d.w.sent == w.sent && d.w.csHigh == w.csHigh && d.w.baud == w.baud
      && (d.out.Fail? ==> d.out == Fail(DataTokenTimeout))
    decreases k
  {
    if k > 0 && recv(w).out.Done? {
      RecvLoopQuiet(recv, recv(w).w, k - 1, got + recv(w).data);
    }
  }

  /** The blocks a receive loop reads before it stops. */
  ghost function LoopBlocks(recv: Wire -> Data, w: Wire, k: nat): seq<seq<byte>>
    decreases k
  {
    if k == 0 || recv(w).out.Fail? then [] else [recv(w).data] + LoopBlocks(recv, recv(w).w, k - 1)
  }

  /** The fills a receive loop adds are the blocks it reads, 512 bytes each, and its data is
      those blocks concatenated; all `k` of them are read on success. */
  lemma {:induction false} RecvLoopFills(recv: Wire -> Data, w: Wire, k: nat, got: seq<byte>)
    requires ReadsOneBlock(recv)
    ensures var d := RecvLoop(recv, w, k, got); var fills := LoopBlocks(recv, w, k);
      d.w.filled == w.filled + fills && d.data == got + Flatten(fills)
      && (forall i :: 0 <= i < |fills| ==> |fills[i]| == BLOCK_SIZE)
      && (d.out.Done? ==> |fills| == k)
    decreases k
  {
    if k > 0 && recv(w).out.Done? {
      var b := recv(w);
      var more := LoopBlocks(recv, b.w, k - 1);
      RecvLoopFills(recv, b.w, k - 1, got + b.data);
      assert RecvLoop(recv, w, k, got) == RecvLoop(recv, b.w, k - 1, got + b.data);
      var fills := LoopBlocks(recv, w, k);
      assert fills == [b.data] + more;
      assert w.filled + [b.data] + more == w.filled + fills;
      forall i | 0 <= i < |fills|
        ensures |fills[i]| == BLOCK_SIZE
      {
        if i > 0 {
          assert fills[i] == more[i - 1];
        }
      }
      FlattenCons(b.data, more);
      assert got + b.data + Flatten(more) == got + Flatten(fills);
    }
  }

  /** The blocks a receive loop reads are the data blocks the script starts with, in order. */
  lemma {:induction false} LoopBlocksFound(recv: Wire -> Data, w: Wire, k: nat)
    requires FindsBlock(recv)
    ensures TokenBlocks(w.miso, LoopBlocks(recv, w, k))
    decreases k
  {
    if k > 0 && recv(w).out.Done? {
      var b := recv(w);
      var more := LoopBlocks(recv, b.w, k - 1);
      LoopBlocksFound(recv, b.w, k - 1);
      assert FoundBlock(recv, w);
      assert LoopBlocks(recv, w, k) == [b.data] + more;
      TokenBlocksCons(w.miso, b.data, b.w.miso, more);
    }
  }

  lemma TokenBlocksCons(s: seq<byte>, b: seq<byte>, rest: seq<byte>, more: seq<seq<byte>>)
    requires TokenBlock(s, b, rest) && TokenBlocks(rest, more)
    ensures TokenBlocks(s, [b] + more)
  {
    assert ([b] + more)[0] == b && ([b] + more)[1..] == more;
  }

  /** The receive loop of a CMD18 read (lines 139-142) writes nothing, leaves cs and the bus
      speed alone and raises only the token timeout. */
  lemma RecvBlocksQuiet(w: Wire, k: nat, got: seq<byte>)
    ensures var d := RecvBlocks(w, k, got);
      d.w.sent == w.sent && d.w.csHigh == w.csHigh && d.w.baud == w.baud
      && (d.out.Fail? ==> d.out == Fail(DataTokenTimeout))
  {
    RecvBlocksIsLoop(w, k, got);
    ReadBlockReadsOne();
    RecvLoopQuiet(ReadBlock, w, k, got);
  }

  /** In the receive loop every block is one 512-byte `readinto`, and the data is what those
      fills stored, in order; all `k` of them happen unless a token wait times out. */
  lemma RecvBlocksFills(w: Wire, k: nat, got: seq<byte>)
    ensures var d := RecvBlocks(w, k, got);
      |w.filled| <= |d.w.filled| && d.w.filled[..|w.filled|] == w.filled
      && d.data == got + Flatten(d.w.filled[|w.filled|..])
      && (forall i :: |w.filled| <= i < |d.w.filled| ==> |d.w.filled[i]| == BLOCK_SIZE)
      && (d.out.Done? ==> |d.w.filled| == |w.filled| + k)
  {
    RecvBlocksIsLoop(w, k, got);
    ReadBlockReadsOne();
    RecvLoopFills(ReadBlock, w, k, got);
    var fills := LoopBlocks(ReadBlock, w, k);
    var d := RecvBlocks(w, k, got);
    assert d.w.filled[|w.filled|..] == fills;
    assert d.w.filled[..|w.filled|] == w.filled;
  }

  /** The fills of the receive loop are the data blocks the script starts with, in order:
      block `i` is the 512 bytes after the `i`-th data token, past the CRC of block `i - 1`. */
  lemma RecvBlocksTokens(w: Wire, k: nat, got: seq<byte>)
    ensures var d := RecvBlocks(w, k, got);
      |w.filled| <= |d.w.filled| && TokenBlocks(w.miso, d.w.filled[|w.filled|..])
  {
    RecvBlocksIsLoop(w, k, got);
    ReadBlockReadsOne();
    ReadBlockFindsBlock();
    RecvLoopFills(ReadBlock, w, k, got);
    LoopBlocksFound(ReadBlock, w, k);
    var d := RecvBlocks(w, k, got);
    assert d.w.filled[|w.filled|..] == LoopBlocks(ReadBlock, w, k);
  }

  /** A single-block read (lines 130-134, a buffer of 512 to 1023 bytes): CMD17 with the
      address `block_num * cdv`; a non-zero response raises the CMD17 read error; otherwise the
      whole buffer is one `readinto` after the data token. The card stays selected. */
  lemma ReadSingle(w: Wire, cdv: nat, blockNum: nat, len: nat)
    requires len / BLOCK_SIZE == 1
    ensures var d := ReadBlocks(w, cdv, blockNum, len); var c := Cmd(w, 17, blockNum * cdv, 0xFF);
      d.w.sent == w.sent + [Frame(17, blockNum * cdv, 0xFF)]
      && (d.out == Fail(ReadError(17)) <==> c.r != 0)
      && (d.out.Fail? ==> d.data == [] && d.w.filled == w.filled
                          && (d.out == Fail(ReadError(17)) || d.out == Fail(DataTokenTimeout)))
      && (d.out.Done? ==> |d.data| == len && d.w.filled == w.filled + [d.data])
      && (d.out.Done? ==>
            exists m: nat :: m <= TOKEN_TIMEOUT + 1 && FirstToken(c.w.miso, m)
              && d.data == Take(Drop(c.w.miso, m), len))
      && !d.w.csHigh
  {
    var c := Cmd(w, 17, blockNum * cdv, 0xFF);
    CmdTrace(w, 17, blockNum * cdv, 0xFF);
    ReadIntoResult(c.w, len);
  }

  /** A multi-block read (lines 135-143, any other buffer length): CMD18 with the address
      `block_num * cdv`; a non-zero response raises the CMD18 read error; otherwise
      `len / 512` blocks of 512 bytes are received in order and CMD12 ends the transfer,
      after which the card is deselected. */
  lemma ReadMulti(w: Wire, cdv: nat, blockNum: nat, len: nat)
    requires len / BLOCK_SIZE != 1
    ensures var d := ReadBlocks(w, cdv, blockNum, len); var c := Cmd(w, 18, blockNum * cdv, 0xFF);
      var n := len / BLOCK_SIZE;
      (d.out == Fail(ReadError(18)) <==> c.r != 0)
      && (d.out.Fail? ==> d.w.sent == w.sent + [Frame(18, blockNum * cdv, 0xFF)]
                          && (d.out == Fail(ReadError(18)) || d.out == Fail(DataTokenTimeout)))
      && (d.out.Done? ==>
            d.w.sent == w.sent + [Frame(18, blockNum * cdv, 0xFF), Frame(12, 0, 0x95)]
            && |d.w.filled| == |w.filled| + n && d.data == Flatten(d.w.filled[|w.filled|..])
            && |d.data| == BLOCK_SIZE * n && d.w.csHigh)
  {
    var n := len / BLOCK_SIZE;
    var c := Cmd(w, 18, blockNum * cdv, 0xFF);
    CmdTrace(w, 18, blockNum * cdv, 0xFF);
    if c.r == 0 {
      var b := RecvBlocks(c.w, n, []);
      RecvBlocksFills(c.w, n, []);
      RecvBlocksQuiet(c.w, n, []);
      RecvBlocksShape(c.w, n, []);
      assert [] + Flatten(b.w.filled[|c.w.filled|..]) == Flatten(b.w.filled[|c.w.filled|..]);
      if b.out.Done? {
        CmdNoDataTrace(b.w, 12, 0);
      }
    }
  }

  /** Strings of 512 bytes each, one after the other, make `512 |ss|` bytes. */
  lemma {:induction false} FlattenLength(ss: seq<seq<byte>>)
    requires forall j :: 0 <= j < |ss| ==> |ss[j]| == BLOCK_SIZE
    ensures |Flatten(ss)| == BLOCK_SIZE * |ss|
    decreases |ss|
  {
    if ss != [] {
      var n := |ss| - 1;
      FlattenLength(ss[..n]);
    }
  }

  /** In strings of 512 bytes each laid one after the other, string `i` is at `512 i`. */
  lemma {:induction false} FlattenBlock(ss: seq<seq<byte>>, i: nat)
    requires forall j :: 0 <= j < |ss| ==> |ss[j]| == BLOCK_SIZE
    requires i < |ss|
    ensures |Flatten(ss)| == BLOCK_SIZE * |ss|
    ensures Flatten(ss)[BLOCK_SIZE * i..BLOCK_SIZE * i + BLOCK_SIZE] == ss[i]
    decreases |ss|
  {
    FlattenLength(ss);
    var n := |ss| - 1;
    var front := ss[..n];
    FlattenLength(front);
    assert Flatten(ss) == Flatten(front) + ss[n];
    if i < n {
      FlattenBlock(front, i);
      assert Flatten(ss)[BLOCK_SIZE * i..BLOCK_SIZE * i + BLOCK_SIZE]
        == Flatten(front)[BLOCK_SIZE * i..BLOCK_SIZE * i + BLOCK_SIZE];
    } else {
      assert |Flatten(front)| == BLOCK_SIZE * i;
      assert (Flatten(front) + ss[n])[BLOCK_SIZE * i..BLOCK_SIZE * i + BLOCK_SIZE] == ss[n];
    }
  }

  /** In a completed multi-block read every `readinto` of the transfer stored one block of
      512 bytes. */
  lemma ReadMultiFills(w: Wire, cdv: nat, blockNum: nat, len: nat)
    requires len / BLOCK_SIZE != 1
    ensures var d := ReadBlocks(w, cdv, blockNum, len);
      d.out.Done? ==> forall j :: |w.filled| <= j < |d.w.filled| ==> |d.w.filled[j]| == BLOCK_SIZE
  {
    var n := len / BLOCK_SIZE;
    var c := Cmd(w, 18, blockNum * cdv, 0xFF);
    CmdTrace(w, 18, blockNum * cdv, 0xFF);
    if c.r == 0 {
      var b := RecvBlocks(c.w, n, []);
      RecvBlocksFills(c.w, n, []);
      if b.out.Done? {
        CmdNoDataTrace(b.w, 12, 0);
      }
    }
  }

  /** In a completed multi-block read the blocks stored are the data blocks the card sent
      after its CMD18 response, in order, each the 512 bytes after a data token found as
      `_readinto` finds it (lines 139-142). */
  lemma ReadMultiTokens(w: Wire, cdv: nat, blockNum: nat, len: nat)
    requires len / BLOCK_SIZE != 1
    ensures var c := Cmd(w, 18, blockNum * cdv, 0xFF); var d := ReadBlocks(w, cdv, blockNum, len);
      d.out.Done? ==> |w.filled| <= |d.w.filled| && TokenBlocks(c.w.miso, d.w.filled[|w.filled|..])
  {
    var n := len / BLOCK_SIZE;
    var c := Cmd(w, 18, blockNum * cdv, 0xFF);
    CmdTrace(w, 18, blockNum * cdv, 0xFF);
    if c.r == 0 {
      var b := RecvBlocks(c.w, n, []);
      RecvBlocksTokens(c.w, n, []);
      if b.out.Done? {
        CmdNoDataTrace(b.w, 12, 0);
      }
    }
  }

  /** In a completed multi-block read, bytes `512 i .. 512 i + 511` of the data are the
      `i`-th block the card sent, the `i`-th `readinto` of the transfer (lines 140-142). */
  lemma ReadMultiBlock(w: Wire, cdv: nat, blockNum: nat, len: nat, i: nat)
    requires len / BLOCK_SIZE != 1 && i < len / BLOCK_SIZE
    ensures var d := ReadBlocks(w, cdv, blockNum, len);
      d.out.Done? ==>
        |w.filled| + i < |d.w.filled| && BLOCK_SIZE * i + BLOCK_SIZE <= |d.data|
        && d.data[BLOCK_SIZE * i..BLOCK_SIZE * i + BLOCK_SIZE] == d.w.filled[|w.filled| + i]
  {
    var d := ReadBlocks(w, cdv, blockNum, len);
    ReadMulti(w, cdv, blockNum, len);
    ReadMultiFills(w, cdv, blockNum, len);
    if d.out.Done? {
      var fills := d.w.filled[|w.filled|..];
      forall j | 0 <= j < |fills|
        ensures |fills[j]| == BLOCK_SIZE
      {
        assert fills[j] == d.w.filled[|w.filled| + j];
      }
      FlattenBlock(fills, i);
      assert fills[i] == d.w.filled[|w.filled| + i];
    }
  }

  // ---------------------------------------------------------------- _write

  /** `_write` (lines 204-212): it writes the 0xFE token, the buffer and two 0xFF CRC bytes,
      in that order, and reads the data response; the data is rejected exactly when the low
      five bits of that response are not `00101`, and otherwise it succeeds exactly when one
      of the next 500 bytes is 0xFF (the card no longer busy). */
  lemma WriteResult(w: Wire, data: seq<byte>)
    ensures var a := Write(w, data); var resp := Peek(w.miso, 0);
      a.w.sent == w.sent + [[TOKEN_DATA], data, [0xFF, 0xFF]]
      && a.w.filled == w.filled && a.w.csHigh == w.csHigh && a.w.baud == w.baud
      && (a.out == Fail(DataRejected) <==> resp % 32 != 0x05)
      && (a.out.Done? <==>
            resp % 32 == 0x05 && exists i :: 1 <= i <= READY_TIMEOUT && Peek(w.miso, i) == 0xFF)
      && (a.out.Fail? ==> a.out == Fail(DataRejected) || a.out == Fail(WriteTimeout))
  {
    var w1 := Send(Send(WriteToken(w, TOKEN_DATA), data), [0xFF, 0xFF]);
    var w2 := Exchange(w1, 1, 0xFF);
    assert w1.sent == w.sent + [[TOKEN_DATA], data, [0xFF, 0xFF]];
    WaitReadyResult(w2, READY_TIMEOUT);
    if WaitReady(w2).ok {
      var i :| 0 <= i < READY_TIMEOUT && Peek(w2.miso, i) == 0xFF;
      PeekDrop(w.miso, 1, i);
    } else {
      forall i | 1 <= i <= READY_TIMEOUT
        ensures Peek(w.miso, i) != 0xFF
      {
        PeekDrop(w.miso, 1, i - 1);
      }
    }
  }

  // ---------------------------------------------------------------- writeblocks

  /** One block of a CMD25 write: the 0xFC start token, then `_write`'s 0xFE, the 512 data
      bytes and the two CRC bytes. */
  function Chunk(data: seq<byte>, offset: nat): seq<seq<byte>>
    requires offset + BLOCK_SIZE <= |data|
  {
    [[TOKEN_CMD25], [TOKEN_DATA], data[offset..offset + BLOCK_SIZE], [0xFF, 0xFF]]
  }

  /** What `k` blocks of a CMD25 write starting at byte `offset` write. */
  function Chunks(data: seq<byte>, offset: nat, k: nat): seq<seq<byte>>
    requires offset + BLOCK_SIZE * k <= |data|
    decreases k
  {
    if k == 0 then [] else Chunk(data, offset) + Chunks(data, offset + BLOCK_SIZE, k - 1)
  }

  lemma ChunksCons(data: seq<byte>, offset: nat, k: nat)
    requires offset + BLOCK_SIZE * k <= |data| && k > 0
    ensures Chunks(data, offset, k) == Chunk(data, offset) + Chunks(data, offset + BLOCK_SIZE, k - 1)
  {
  }

  lemma {:induction false} ChunksLength(data: seq<byte>, offset: nat, k: nat)
    requires offset + BLOCK_SIZE * k <= |data|
    ensures |Chunks(data, offset, k)| == 4 * k
    decreases k
  {
    if k > 0 {
      ChunksCons(data, offset, k);
      ChunksLength(data, offset + BLOCK_SIZE, k - 1);
    }
  }

  /** Block `j` of a CMD25 write is written as the four writes `4 j .. 4 j + 3`: the 0xFC
      token, the 0xFE token, the bytes `512 j .. 512 j + 511` of the stretch written, and the
      two CRC bytes. */
  lemma {:induction false} ChunkAt(data: seq<byte>, offset: nat, k: nat, j: nat)
    requires offset + BLOCK_SIZE * k <= |data| && j < k
    ensures |Chunks(data, offset, k)| == 4 * k
    ensures offset + BLOCK_SIZE * j + BLOCK_SIZE <= |data|
    ensures var c := Chunks(data, offset, k); var lo := offset + BLOCK_SIZE * j;
      c[4 * j] == [TOKEN_CMD25] && c[4 * j + 1] == [TOKEN_DATA]
      && c[4 * j + 2] == data[lo..lo + BLOCK_SIZE] && c[4 * j + 3] == [0xFF, 0xFF]
    decreases j
  {
    ChunksLength(data, offset, k);
    ChunksCons(data, offset, k);
    if j > 0 {
      var rest := Chunks(data, offset + BLOCK_SIZE, k - 1);
      ChunkAt(data, offset + BLOCK_SIZE, k - 1, j - 1);
      assert offset + BLOCK_SIZE + BLOCK_SIZE * (j - 1) == offset + BLOCK_SIZE * j;
      assert |Chunk(data, offset)| == 4;
      assert Chunks(data, offset, k)[4 * j] == rest[4 * (j - 1)];
      assert Chunks(data, offset, k)[4 * j + 1] == rest[4 * (j - 1) + 1];
      assert Chunks(data, offset, k)[4 * j + 2] == rest[4 * (j - 1) + 2];
      assert Chunks(data, offset, k)[4 * j + 3] == rest[4 * (j - 1) + 3];
    }
  }

  /** A block write that writes the block framed as in a CMD25 write and nothing else, keeps
      cs and the bus speed, and raises only what `_write` raises. */
  ghost predicate PutsOneBlock(put: (Wire, seq<byte>) -> After) {
    forall x, b ::
      put(x, b).w.sent == x.sent + [[TOKEN_CMD25], [TOKEN_DATA], b, [0xFF, 0xFF]]
      && put(x, b).w.filled == x.filled && put(x, b).w.csHigh == x.csHigh && put(x, b).w.baud == x.baud
      && (put(x, b).out.Fail? ==> put(x, b).out == Fail(DataRejected) || put(x, b).out == Fail(WriteTimeout))
  }

  lemma PutBlockResult(x: Wire, b: seq<byte>)
    ensures PutBlock(x, b).w.sent == x.sent + [[TOKEN_CMD25], [TOKEN_DATA], b, [0xFF, 0xFF]]
    ensures PutBlock(x, b).w.filled == x.filled && PutBlock(x, b).w.csHigh == x.csHigh
    ensures PutBlock(x, b).w.baud == x.baud
    ensures PutBlock(x, b).out.Fail? ==>
      PutBlock(x, b).out == Fail(DataRejected) || PutBlock(x, b).out == Fail(WriteTimeout)
  {
    WriteResult(WriteToken(x, TOKEN_CMD25), b);
    assert x.sent + [[TOKEN_CMD25]] + [[TOKEN_DATA], b, [0xFF, 0xFF]]
      == x.sent + [[TOKEN_CMD25], [TOKEN_DATA], b, [0xFF, 0xFF]];
  }

  lemma PutBlockPutsOne()
    ensures PutsOneBlock(PutBlock)
  {
    forall x, b {
      PutBlockResult(x, b);
    }
  }

  lemma {:induction false} SendLoopQuiet(put: (Wire, seq<byte>) -> After, w: Wire, data: seq<byte>, offset: nat, k: nat)
    requires PutsOneBlock(put) && offset + BLOCK_SIZE * k <= |data|
    ensures var s := SendLoop(put, w, data, offset, k);
      s.w.filled == w.filled && s.w.csHigh == w.csHigh && s.w.baud == w.baud
      && (s.out.Fail? ==> s.out == Fail(DataRejected) || s.out == Fail(WriteTimeout))
    decreases k
  {
    if k > 0 {
      var a := put(w, data[offset..offset + BLOCK_SIZE]);
      if a.out.Done? {
        SendLoopQuiet(put, a.w, data, offset + BLOCK_SIZE, k - 1);
      }
    }
  }

  lemma {:induction false} SendLoopSent(put: (Wire, seq<byte>) -> After, w: Wire, data: seq<byte>, offset: nat, k: nat)
    requires PutsOneBlock(put) && offset + BLOCK_SIZE * k <= |data|
    ensures var s := SendLoop(put, w, data, offset, k);
      (s.out.Done? ==> s.w.sent == w.sent + Chunks(data, offset, k))
      && (s.out.Fail? ==> exists j :: 1 <= j <= k && s.w.sent == w.sent + Chunks(data, offset, j))
    decreases k
  {
    if k > 0 {
      var a := put(w, data[offset..offset + BLOCK_SIZE]);
      var s := SendLoop(put, w, data, offset, k);
      assert a.w.sent == w.sent + Chunk(data, offset);
      if a.out.Fail? {
        assert s == a;
        ChunksCons(data, offset, 1);
        assert Chunks(data, offset, 1) == Chunk(data, offset);
      } else {
        var s' := SendLoop(put, a.w, data, offset + BLOCK_SIZE, k - 1);
        assert s == s';
        SendLoopSent(put, a.w, data, offset + BLOCK_SIZE, k - 1);
        if s.out.Done? {
          ChunksCons(data, offset, k);
          assert w.sent + Chunk(data, offset) + Chunks(data, offset + BLOCK_SIZE, k - 1)
            == w.sent + (Chunk(data, offset) + Chunks(data, offset + BLOCK_SIZE, k - 1));
        } else {
          var j :| 1 <= j <= k - 1 && s.w.sent == a.w.sent + Chunks(data, offset + BLOCK_SIZE, j);
          var j1 := j + 1;
          ChunksCons(data, offset, j1);
          assert w.sent + Chunk(data, offset) + Chunks(data, offset + BLOCK_SIZE, j)
            == w.sent + (Chunk(data, offset) + Chunks(data, offset + BLOCK_SIZE, j));
          assert s.w.sent == w.sent + Chunks(data, offset, j1);
        }
      }
    }
  }

  /** The wire after the first `j` chunks from `offset` on have each been put in turn. */
  ghost function Accepted(put: (Wire, seq<byte>) -> After, w: Wire, data: seq<byte>, offset: nat, j: nat): Wire
    requires offset + BLOCK_SIZE * j <= |data|
    decreases j
  {
    if j == 0 then w
    else Accepted(put, put(w, data[offset..offset + BLOCK_SIZE]).w, data, offset + BLOCK_SIZE, j - 1)
  }

  /** Each of the first `j` chunks, put in turn, is accepted. */
  ghost predicate AllAccepted(put: (Wire, seq<byte>) -> After, w: Wire, data: seq<byte>, offset: nat, j: nat)
    requires offset + BLOCK_SIZE * j <= |data|
    decreases j
  {
    j == 0 ||
      (put(w, data[offset..offset + BLOCK_SIZE]).out.Done?
       && AllAccepted(put, put(w, data[offset..offset + BLOCK_SIZE]).w, data, offset + BLOCK_SIZE, j - 1))
  }

  /** A send loop succeeds exactly when every chunk is accepted, and then ends where the
      chunks leave the wire; otherwise it stops at the first chunk `j` refused, every chunk
      before it accepted, with the outcome of putting chunk `j`. */
  lemma {:induction false} SendLoopStops(put: (Wire, seq<byte>) -> After, w: Wire, data: seq<byte>, offset: nat, k: nat)
    requires offset + BLOCK_SIZE * k <= |data|
    ensures var s := SendLoop(put, w, data, offset, k);
      (s.out.Done? <==> AllAccepted(put, w, data, offset, k))
      && (s.out.Done? ==> s.w == Accepted(put, w, data, offset, k))
    ensures var s := SendLoop(put, w, data, offset, k);
      s.out.Fail? ==>
        exists j: nat :: j < k && AllAccepted(put, w, data, offset, j)
          && s == put(Accepted(put, w, data, offset, j),
                      data[offset + BLOCK_SIZE * j..offset + BLOCK_SIZE * j + BLOCK_SIZE])
    decreases k
  {
    if k > 0 {
      var a := put(w, data[offset..offset + BLOCK_SIZE]);
      var s := SendLoop(put, w, data, offset, k);
      if a.out.Fail? {
        assert s == a;
        assert AllAccepted(put, w, data, offset, 0) && Accepted(put, w, data, offset, 0) == w;
      } else {
        SendLoopStops(put, a.w, data, offset + BLOCK_SIZE, k - 1);
        assert s == SendLoop(put, a.w, data, offset + BLOCK_SIZE, k - 1);
        if s.out.Fail? {
          var j: nat :| j < k - 1 && AllAccepted(put, a.w, data, offset + BLOCK_SIZE, j)
            && s == put(Accepted(put, a.w, data, offset + BLOCK_SIZE, j),
                        data[offset + BLOCK_SIZE + BLOCK_SIZE * j..offset + BLOCK_SIZE + BLOCK_SIZE * j + BLOCK_SIZE]);
          assert offset + BLOCK_SIZE + BLOCK_SIZE * j == offset + BLOCK_SIZE * (j + 1);
          assert AllAccepted(put, w, data, offset, j + 1);
          assert Accepted(put, w, data, offset, j + 1) == Accepted(put, a.w, data, offset + BLOCK_SIZE, j);
        }
      }
    }
  }

  /** After `j` accepted chunks the wire carries their `Chunk` writes, and nothing else has
      changed that a block write keeps. */
  lemma {:induction false} AcceptedSent(put: (Wire, seq<byte>) -> After, w: Wire, data: seq<byte>, offset: nat, j: nat)
    requires PutsOneBlock(put) && offset + BLOCK_SIZE * j <= |data|
    ensures var x := Accepted(put, w, data, offset, j);
      x.sent == w.sent + Chunks(data, offset, j)
      && x.filled == w.filled && x.csHigh == w.csHigh && x.baud == w.baud
    decreases j
  {
    if j > 0 {
      var a := put(w, data[offset..offset + BLOCK_SIZE]);
      AcceptedSent(put, a.w, data, offset + BLOCK_SIZE, j - 1);
      ChunksCons(data, offset, j);
      assert w.sent + Chunk(data, offset) + Chunks(data, offset + BLOCK_SIZE, j - 1)
        == w.sent + (Chunk(data, offset) + Chunks(data, offset + BLOCK_SIZE, j - 1));
    }
  }

  /** The send loop of a CMD25 write (lines 158-162) fills nothing, leaves cs and the bus
      speed alone and raises only what `_write` raises. */
  lemma SendBlocksQuiet(w: Wire, data: seq<byte>, offset: nat, k: nat)
    requires offset + BLOCK_SIZE * k <= |data|
    ensures var s := SendBlocks(w, data, offset, k);
      s.w.filled == w.filled && s.w.csHigh == w.csHigh && s.w.baud == w.baud
      && (s.out.Fail? ==> s.out == Fail(DataRejected) || s.out == Fail(WriteTimeout))
  {
    PutBlockPutsOne();
    SendLoopQuiet(PutBlock, w, data, offset, k);
  }

  /** In the send loop every block is written as `Chunk`, in order; the loop stops at the
      first block `_write` refuses, after writing that block. */
  lemma SendBlocksSent(w: Wire, data: seq<byte>, offset: nat, k: nat)
    requires offset + BLOCK_SIZE * k <= |data|
    ensures var s := SendBlocks(w, data, offset, k);
      (s.out.Done? ==> s.w.sent == w.sent + Chunks(data, offset, k))
      && (s.out.Fail? ==> exists j :: 1 <= j <= k && s.w.sent == w.sent + Chunks(data, offset, j))
  {
    PutBlockPutsOne();
    SendLoopSent(PutBlock, w, data, offset, k);
  }

  /** The send loop of a CMD25 write succeeds exactly when `_write` accepts every block; when
      it does not, it stops at the first block `j` refused: blocks `0 .. j - 1` were accepted
      and written, then block `j` was written and its `_write` raised. */
  lemma SendBlocksStops(w: Wire, data: seq<byte>, offset: nat, k: nat)
    requires offset + BLOCK_SIZE * k <= |data|
    ensures var s := SendBlocks(w, data, offset, k);
      (s.out.Done? <==> AllAccepted(PutBlock, w, data, offset, k))
    ensures var s := SendBlocks(w, data, offset, k);
      s.out.Fail? ==>
        exists j: nat :: j < k && AllAccepted(PutBlock, w, data, offset, j)
          && s == PutBlock(Accepted(PutBlock, w, data, offset, j),
                           data[offset + BLOCK_SIZE * j..offset + BLOCK_SIZE * j + BLOCK_SIZE])
          && s.w.sent == w.sent + Chunks(data, offset, j) + Chunk(data, offset + BLOCK_SIZE * j)
  {
    var s := SendBlocks(w, data, offset, k);
    SendLoopStops(PutBlock, w, data, offset, k);
    if s.out.Fail? {
      var j: nat :| j < k && AllAccepted(PutBlock, w, data, offset, j)
        && s == PutBlock(Accepted(PutBlock, w, data, offset, j),
                         data[offset + BLOCK_SIZE * j..offset + BLOCK_SIZE * j + BLOCK_SIZE]);
      PutBlockPutsOne();
      AcceptedSent(PutBlock, w, data, offset, j);
      PutBlockResult(Accepted(PutBlock, w, data, offset, j),
                     data[offset + BLOCK_SIZE * j..offset + BLOCK_SIZE * j + BLOCK_SIZE]);
    }
  }

  /** The last two things on the bus were `cs(1)` and a one-byte `spi.read(1, 0xFF)`. */
  ghost predicate Released(w: Wire) {
    |w.log| >= 2 && w.log[|w.log| - 2] == CsLevel(true)
    && w.log[|w.log| - 1].RxPoll? && w.log[|w.log| - 1].fill == 0xFF && |w.log[|w.log| - 1].got| == 1
  }

  lemma ReleaseEnds(w: Wire)
    ensures Released(Release(w)) && Release(w).csHigh
    ensures Release(w).sent == w.sent && Release(w).filled == w.filled && Release(w).baud == w.baud
  {
  }

  /** A single-block write (lines 149-153, a buffer of 512 to 1023 bytes): CMD24 with the
      address `block_num * cdv`, whose non-zero response raises the CMD24 write error; then
      the whole buffer framed by `_write`; on success the card is deselected and one padding
      byte is read (lines 165-166). An error leaves the card selected. */
  lemma WriteSingle(w: Wire, cdv: nat, blockNum: nat, data: seq<byte>)
    requires |data| / BLOCK_SIZE == 1
    ensures var a := WriteBlocks(w, cdv, blockNum, data); var c := Cmd(w, 24, blockNum * cdv, 0xFF);
      (a.out == Fail(WriteError(24)) <==> c.r != 0)
      && (c.r != 0 ==> a.w.sent == w.sent + [Frame(24, blockNum * cdv, 0xFF)])
      && (c.r == 0 ==> a.w.sent == w.sent + [Frame(24, blockNum * cdv, 0xFF), [TOKEN_DATA], data, [0xFF, 0xFF]])
      && (a.out == Fail(DataRejected) <==> c.r == 0 && Peek(c.w.miso, 0) % 32 != 0x05)
      && (a.out.Done? ==> Released(a.w))
      && (a.out.Fail? ==> !a.w.csHigh)
      && a.w.filled == w.filled
  {
    var c := Cmd(w, 24, blockNum * cdv, 0xFF);
    CmdTrace(w, 24, blockNum * cdv, 0xFF);
    if c.r == 0 {
      var a := Write(c.w, data);
      WriteResult(c.w, data);
      ReleaseEnds(a.w);
      assert c.w.sent + [[TOKEN_DATA], data, [0xFF, 0xFF]]
        == w.sent + [Frame(24, blockNum * cdv, 0xFF), [TOKEN_DATA], data, [0xFF, 0xFF]];
    }
  }

  /** A multi-block write (lines 154-166, any other buffer length): CMD25 with the address
      `block_num * cdv`, whose non-zero response raises the CMD25 write error; then each of
      the `len / 512` blocks as `Chunk`, the 0xFD stop token, and on success the card is
      deselected and one padding byte read. An error leaves the card selected. */
  lemma WriteMulti(w: Wire, cdv: nat, blockNum: nat, data: seq<byte>)
    requires |data| / BLOCK_SIZE != 1
    ensures var a := WriteBlocks(w, cdv, blockNum, data); var c := Cmd(w, 25, blockNum * cdv, 0xFF);
      var n := |data| / BLOCK_SIZE;
      (a.out == Fail(WriteError(25)) <==> c.r != 0)
      && (a.out.Done? ==>
            a.w.sent == w.sent + [Frame(25, blockNum * cdv, 0xFF)] + Chunks(data, 0, n) + [[TOKEN_STOP_TRAN]]
            && Released(a.w))
      && (a.out.Fail? ==> !a.w.csHigh)
      && a.w.filled == w.filled
  {
    var n := |data| / BLOCK_SIZE;
    var c := Cmd(w, 25, blockNum * cdv, 0xFF);
    CmdTrace(w, 25, blockNum * cdv, 0xFF);
    if c.r == 0 {
      var s := SendBlocks(c.w, data, 0, n);
      SendBlocksQuiet(c.w, data, 0, n);
      SendBlocksSent(c.w, data, 0, n);
      ReleaseEnds(WriteToken(s.w, TOKEN_STOP_TRAN));
    }
  }

  /** A multi-block write succeeds exactly when CMD25 is answered with 0 and `_write` then
      accepts every one of the `len / 512` blocks (lines 158-162). */
  lemma WriteMultiAccepts(w: Wire, cdv: nat, blockNum: nat, data: seq<byte>)
    requires |data| / BLOCK_SIZE != 1
    ensures var c := Cmd(w, 25, blockNum * cdv, 0xFF); var a := WriteBlocks(w, cdv, blockNum, data);
      var n := |data| / BLOCK_SIZE;
      BLOCK_SIZE * n <= |data|
      && (a.out.Done? <==> c.r == 0 && AllAccepted(PutBlock, c.w, data, 0, n))
  {
    var n := |data| / BLOCK_SIZE;
    var c := Cmd(w, 25, blockNum * cdv, 0xFF);
    if c.r == 0 {
      SendBlocksStops(c.w, data, 0, n);
    }
  }


  // ---------------------------------------------------------------- ioctl

  /** `ioctl` (lines 168-186): every operation but 4 answers 0 without touching the bus; for
      4, a non-zero CMD9 response answers 0 (the card stays selected); otherwise the 16-byte
      CSD register is read with `_readinto`, whose timeout raises, the card is deselected and
      the block count decoded from the stored bytes, at least 4 and at most 2^32. */
  lemma IoctlResult(w: Wire, op: int)
    ensures var c := Ioctl(w, op); var r := Cmd(w, 9, 0, 0xFF);
      (op != 4 ==> c == Count(w, Done, 0))
      && (op == 4 ==> c.w.sent == w.sent + [Frame(9, 0, 0xFF)])
      && (op == 4 && r.r != 0 ==> c.out == Done && c.blocks == 0 && !c.w.csHigh)
      && (op == 4 && r.r == 0 ==>
            (c.out.Fail? <==> forall i :: 0 <= i <= TOKEN_TIMEOUT ==> Peek(r.w.miso, i) != TOKEN_DATA)
            && (c.out.Fail? ==> c.out == Fail(DataTokenTimeout) && c.blocks == 0)
            && (c.out.Done? ==>
                  c.w.csHigh && |c.w.filled| == |w.filled| + 1 && |c.w.filled[|w.filled|]| == 16
                  && c.blocks == Csd.BlockCount(c.w.filled[|w.filled|])
                  && 4 <= c.blocks <= 0x1_0000_0000))
  {
    if op == 4 {
      var r := Cmd(w, 9, 0, 0xFF);
      CmdTrace(w, 9, 0, 0xFF);
      if r.r == 0 {
        var d := ReadInto(r.w, 16);
        ReadIntoResult(r.w, 16);
        if d.out.Done? {
          assert d.w.filled[|w.filled|] == d.data;
          if Csd.IsVersion2(d.data) {
            Csd.BlockCountV2(d.data);
          } else {
            Csd.BlockCountV1(d.data);
          }
        }
      }
    }
  }
}
