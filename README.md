# SPI-mode SD card driver, modelled and verified in Dafny

This project models the MicroPython driver class `SDCard` of
`Borealis/Borealis/Mainboard_prototype/sdcard.py` and proves what it does on the bus. The driver
talks to an SD card in SPI mode. It sends 6-byte command frames and polls for the one-byte
R1 response. It brings the card up with CMD0, CMD8, an ACMD41 retry loop, CMD58 and CMD16, and
picks the addressing multiplier `cdv` from the OCR register. Blocks are read with CMD17/CMD18
and the 0xFE data token, and written with CMD24/CMD25, the 0xFC/0xFE/0xFD tokens and the
data-response check. The card's capacity is decoded from the CSD register (`ioctl(4, …)`).

## The hardware the driver sees

The SPI bus, the chip-select pin and the millisecond clock form one simulated object,
`SimBus.Bus`. Its whole state is the value `SimBus.Wire`:

- `miso` is the card's script, the bytes it will shift out, in order. Each byte the driver
  reads (`spi.read`, `spi.readinto`) takes the next byte of the script. Once the script is used
  up, the line reads 0xFF, as an idle, pulled-up MISO line does. Bytes clocked in while the
  driver writes are discarded by the driver, so writes do not take from the script.
- `log` records every bus event in order: chip-select levels, `spi.init` speeds, writes,
  reads, fills and sleeps.
- `sent` lists the payload of every `spi.write`. `filled` lists what every `spi.readinto`
  stored. `Trace.Recorded` (the two views are exactly those of the log) is preserved by
  every primitive of the bus.
- `csHigh` is the chip-select level and `baud` the current bus speed.
- `now` is the clock. It advances one tick per byte clocked and by `ms` on `sleep_ms(ms)`.

## Structure

- `bytes.dfy` (`Bytes`): the byte type, powers of two, and Python's `&` and `|` on integers.
  Negative integers are included, because `-1 & 4` matters.
- `frame.dfy` (`CommandFrame`): the 6-byte command frame, and what a card decodes from it.
- `csd.dfy` (`Csd`): the version 1.0 and 2.0 capacity fields of the CSD register.
- `simbus.dfy` (`SimBus`), `trace.dfy` (`Trace`): the simulated hardware and its log views.
- `protocol.dfy` (`Protocol`): one function per driver routine, mapping a `Wire` to the
  resulting `Wire` and the routine's result. A Python `raise OSError(…)` becomes a
  `Fail(Error)` outcome; the wire then holds the hardware state at the raise.
- `sdcard.dfy` (`SdCard`): the class `SDCard` with the field `cdv`.
  - Every method does step by step what the source does, with its loops.
  - Every method is proved to leave the bus, `cdv` and the caller's buffer exactly as the
    matching `Protocol` function says.
- `poll_props.dfy`, `command_props.dfy`, `init_props.dfy`, `block_props.dfy`: what the driver
  promises, proved about the `Protocol` functions.

Where the model follows the code as written:

- There is no buffer-length check. `readblocks` and `writeblocks` take `nblocks = len(buf) // 512`
  for every length. A buffer of 512 to 1023 bytes is one CMD17/CMD24 transfer of the whole
  buffer. Every other length, 0 and shorter than 512 included, takes the CMD18/CMD25 path with
  `len // 512` blocks.
- A single-block read leaves the card selected.
- Each block of a multi-block write is sent as 0xFC, then `_write`'s own 0xFE token, the data
  and two CRC bytes.
- A timed-out CMD8 returns -1. In Python `-1 & 4` is non-zero, so the 4-byte echo is not read.
- `ioctl(4, …)` returns 0 when CMD9 fails, but a data-token timeout while it reads the CSD
  raises.
- A CSD_STRUCTURE value other than 1 is decoded with the version 1.0 layout.

## Model

| member | source | states |
|---|---|---|
| SdCard.SDCard.constructor | Borealis/Borealis/Mainboard_prototype/sdcard.py:15-20 | the object keeps the bus and speed, `cdv` starts at 512, and the chip select is driven high |
| SdCard.SDCard.Open | Borealis/Borealis/Mainboard_prototype/sdcard.py:15-21 | construction followed by `_init_card`: the bus, `cdv` and the outcome are those of `Protocol.InitCard` after the chip select went high; `cdv` is then 1 or 512 |
| SdCard.SDCard.InitSpi | Borealis/Borealis/Mainboard_prototype/sdcard.py:25-26 | only the bus speed changes, and the change is logged |
| SdCard.SDCard.Select | Borealis/Borealis/Mainboard_prototype/sdcard.py:28-29 | the chip select goes low |
| SdCard.SDCard.Deselect | Borealis/Borealis/Mainboard_prototype/sdcard.py:31-32 | the chip select goes high |
| SdCard.SDCard.WaitReady | Borealis/Borealis/Mainboard_prototype/sdcard.py:34-40 | the polling loop leaves the bus and returns the flag that `Protocol.WaitReady` gives |
| SdCard.SDCard.Cmd | Borealis/Borealis/Mainboard_prototype/sdcard.py:42-63 | deselect, padding byte, select, busy wait, frame, R1 poll loop: the bus and response of `Protocol.Cmd` |
| SdCard.SDCard.WriteFrame | Borealis/Borealis/Mainboard_prototype/sdcard.py:49-57 | the frame filled in a 6-byte buffer is written in one transfer, and it equals `CommandFrame.Frame` |
| SdCard.SDCard.CmdNoData | Borealis/Borealis/Mainboard_prototype/sdcard.py:65-68 | `_cmd` with CRC 0x95 and then a deselect, as `Protocol.CmdNoData` |
| SdCard.SDCard.InitCard | Borealis/Borealis/Mainboard_prototype/sdcard.py:72-122 | the whole initialisation: bus, new `cdv` and outcome (including each raise) as `Protocol.InitCard`; a `cdv` of 1 or 512 stays 1 or 512 |
| SdCard.SDCard.PowerUp | Borealis/Borealis/Mainboard_prototype/sdcard.py:74-79 | slow clock, deselect, ten 0xFF writes, as `Protocol.PowerUp` |
| SdCard.SDCard.SendIfCond | Borealis/Borealis/Mainboard_prototype/sdcard.py:87-90 | CMD8 and the echo read taken only when the illegal-command bit is clear |
| SdCard.SDCard.AwaitReady | Borealis/Borealis/Mainboard_prototype/sdcard.py:93-100 | the ACMD41 loop run for `tries` passes leaves the bus and success flag of `Protocol.Acmd41Loop` |
| SdCard.SDCard.Pass | Borealis/Borealis/Mainboard_prototype/sdcard.py:94-98 | one pass is accepted exactly when CMD41 answered 0; a refused pass is followed by a 1 ms sleep |
| SdCard.SDCard.Acmd41 | Borealis/Borealis/Mainboard_prototype/sdcard.py:94-95 | CMD55 followed by CMD41 with argument 0x40000000 |
| SdCard.SDCard.ReadOcr | Borealis/Borealis/Mainboard_prototype/sdcard.py:103-113 | CMD58, the OCR `readinto` on a zero answer, and `cdv` set as `Protocol.ReadOcr` says |
| SdCard.SDCard.ReadBlocks | Borealis/Borealis/Mainboard_prototype/sdcard.py:126-143 | the bus and outcome are `Protocol.ReadBlocks`; the buffer holds the data received, from its start, and is otherwise unchanged |
| SdCard.SDCard.RecvBlocks | Borealis/Borealis/Mainboard_prototype/sdcard.py:139-142 | the `offset += 512` loop stores block after block into the buffer, as `Protocol.RecvBlocks` |
| SdCard.SDCard.WriteBlocks | Borealis/Borealis/Mainboard_prototype/sdcard.py:145-166 | the bus and outcome of `Protocol.WriteBlocks` on the buffer's contents |
| SdCard.SDCard.SendBlocks | Borealis/Borealis/Mainboard_prototype/sdcard.py:158-162 | the chunk loop writes 0xFC and `_write` of each 512-byte slice, as `Protocol.SendBlocks` |
| SdCard.SDCard.Ioctl | Borealis/Borealis/Mainboard_prototype/sdcard.py:168-186 | the bus, outcome and returned count of `Protocol.Ioctl` |
| SdCard.SDCard.ReadInto | Borealis/Borealis/Mainboard_prototype/sdcard.py:190-202 | the token wait, the fill of `buf[lo..hi]` (nothing else in the buffer changes; nothing at all on timeout) and the CRC read |
| SdCard.SDCard.Write | Borealis/Borealis/Mainboard_prototype/sdcard.py:204-212 | token, data, CRC, response check and busy wait, as `Protocol.Write` |
| SdCard.SDCard.WriteToken | Borealis/Borealis/Mainboard_prototype/sdcard.py:214-215 | a one-byte write of the token |
| CommandFrame.FrameArgument | Borealis/Borealis/Mainboard_prototype/sdcard.py:51-54 | frame bytes 1-4 read big-endian give back the argument modulo 2^32 |
| CommandFrame.FrameHeader | Borealis/Borealis/Mainboard_prototype/sdcard.py:50-55 | for an index below 64 the first byte is 0x40 + index (start bits 01), and the last byte is the CRC |
| CommandFrame.ParseFrame | Borealis/Borealis/Mainboard_prototype/sdcard.py:49-57 | a card decoding the frame recovers index, argument modulo 2^32 and the CRC; for a 32-bit argument this is the full command |
| CommandFrame.BigEndianBound | Borealis/Borealis/Mainboard_prototype/sdcard.py:51-54 | `k` bytes read big-endian are below 2^(8k) |
| Bytes.MinusOneHasAllBits | Borealis/Borealis/Mainboard_prototype/sdcard.py:88 | Python's -1 has every bit set, so `-1 & 4` is non-zero |
| Bytes.BitOrDisjoint | Borealis/Borealis/Mainboard_prototype/sdcard.py:178 | the bitwise or of `c << k` and `b` is their sum when `b < 2^k` |
| Csd.CSizeV2Value | Borealis/Borealis/Mainboard_prototype/sdcard.py:178 | C_SIZE v2.0 is the 22 bits `csd[7][5:0] csd[8] csd[9]`, below 2^22 |
| Csd.CSizeV1Value | Borealis/Borealis/Mainboard_prototype/sdcard.py:182 | C_SIZE v1.0 is the 12 bits `csd[6][1:0] csd[7] csd[8][7:6]`, below 4096 |
| Csd.CSizeMultValue | Borealis/Borealis/Mainboard_prototype/sdcard.py:183 | C_SIZE_MULT is the 3 bits `csd[9][1:0] csd[10][7]`, below 8 |
| Csd.BlockCountV2 | Borealis/Borealis/Mainboard_prototype/sdcard.py:176-179 | a v2.0 count is `(C_SIZE + 1) * 1024`, between 1024 and 2^32, and zero size bits give 1024 |
| Csd.BlockCountV1 | Borealis/Borealis/Mainboard_prototype/sdcard.py:180-184 | a v1.0 count is `(C_SIZE + 1) * 2^(MULT + 2)`, between 4 and 2^21, and zero fields give 4 |
| Protocol.RecvBlocksShape | Borealis/Borealis/Mainboard_prototype/sdcard.py:139-142 | the receive loop keeps earlier data and adds only whole blocks, `k` of them when it completes |
| PollProps.PollR1Count | Borealis/Borealis/Mainboard_prototype/sdcard.py:59-63 | the R1 poll reads at most 100 bytes, all of them when it returns -1, and otherwise returns the last byte it read, whose bit 7 is clear |
| PollProps.PollR1Skips | Borealis/Borealis/Mainboard_prototype/sdcard.py:59-63 | every byte passed over has bit 7 set |
| PollProps.PollR1Result | Borealis/Borealis/Mainboard_prototype/sdcard.py:59-63 | the poll returns the first byte with bit 7 clear; it returns -1 exactly when all 100 bytes have bit 7 set |
| PollProps.PollR1Range | Borealis/Borealis/Mainboard_prototype/sdcard.py:59-63 | the response is -1 or in 0..127, and -1 exactly when no polled byte had bit 7 clear |
| PollProps.PollR1Quiet | Borealis/Borealis/Mainboard_prototype/sdcard.py:59-63 | the poll only reads: nothing is written or filled, and cs and the speed do not change |
| PollProps.WaitLoopResult | Borealis/Borealis/Mainboard_prototype/sdcard.py:34-40 | the busy wait stops at the first 0xFF; it gives up only after its whole tick budget (at least one byte) |
| PollProps.WaitLoopQuiet | Borealis/Borealis/Mainboard_prototype/sdcard.py:34-40 | the busy wait only reads |
| PollProps.WaitReadyResult | Borealis/Borealis/Mainboard_prototype/sdcard.py:34-40 | `_wait_ready(t)` is true exactly when one of the next `max(1, t)` bytes is 0xFF |
| PollProps.TokenLoopCount | Borealis/Borealis/Mainboard_prototype/sdcard.py:192-198 | the token wait reads between 1 and its budget of bytes, stops on 0xFE, and gives up only after the whole budget |
| PollProps.TokenLoopSkips | Borealis/Borealis/Mainboard_prototype/sdcard.py:192-198 | no byte before the one it stopped on is 0xFE |
| PollProps.TokenLoopResult | Borealis/Borealis/Mainboard_prototype/sdcard.py:192-198 | the wait finds the first 0xFE among its 1001 bytes (strict `> 1000` deadline); the failure case reads all of them |
| PollProps.TokenLoopQuiet | Borealis/Borealis/Mainboard_prototype/sdcard.py:192-198 | the token wait only reads |
| CommandProps.CmdTrace | Borealis/Borealis/Mainboard_prototype/sdcard.py:42-63 | `_cmd` writes exactly its frame, fills nothing, leaves the card selected, keeps the speed, and answers -1 or 0..127 |
| CommandProps.CmdNoDataTrace | Borealis/Borealis/Mainboard_prototype/sdcard.py:65-68 | `_cmd_nodata` writes its frame with CRC 0x95, returns `_cmd`'s answer, and leaves the card deselected |
| CommandProps.CmdDelivers | Borealis/Borealis/Mainboard_prototype/sdcard.py:42-57 | the last frame on the bus after `_cmd` decodes to the command, its argument modulo 2^32 and its CRC |
| InitProps.PowerUpTrace | Borealis/Borealis/Mainboard_prototype/sdcard.py:74-79 | power-up sets 100 kHz, deselects, writes ten single 0xFF bytes, and reads nothing |
| InitProps.DummyBytesTrace | Borealis/Borealis/Mainboard_prototype/sdcard.py:78-79 | `k` dummy writes write `k` single 0xFF bytes and nothing else |
| InitProps.ResetCheck | Borealis/Borealis/Mainboard_prototype/sdcard.py:82-84 | "no SD card" is raised exactly when the CMD0 answer is neither 1 nor 0 (so also on -1); nothing follows CMD0 then |
| InitProps.IfCondEcho | Borealis/Borealis/Mainboard_prototype/sdcard.py:86-90 | after a CMD8 timeout (-1) nothing more is read; after a response byte the 4-byte echo is read exactly when bit 2 (value 4) is clear, and otherwise nothing more happens |
| InitProps.IfCondTrace | Borealis/Borealis/Mainboard_prototype/sdcard.py:87-90 | CMD8 writes its frame only; the echo is a read |
| InitProps.PreambleTrace | Borealis/Borealis/Mainboard_prototype/sdcard.py:74-90 | before the ACMD41 loop the driver has written ten 0xFF bytes, CMD0 and CMD8, and filled nothing |
| InitProps.RetryRefused | Borealis/Borealis/Mainboard_prototype/sdcard.py:93-100 | when every pass is refused, the loop makes all of them, each followed by a sleep, and fails |
| InitProps.RetryAccepted | Borealis/Borealis/Mainboard_prototype/sdcard.py:93-97 | when pass `j` is the first accepted, the loop succeeds and ends right after it |
| InitProps.FirstAccepted | Borealis/Borealis/Mainboard_prototype/sdcard.py:93-97 | if some pass is accepted, there is a first accepted one |
| InitProps.RetryResult | Borealis/Borealis/Mainboard_prototype/sdcard.py:93-100 | the loop succeeds exactly when some pass is accepted; on failure every pass was refused and made |
| InitProps.Acmd41Trace | Borealis/Borealis/Mainboard_prototype/sdcard.py:94-95 | one pass writes CMD55 and then CMD41 with argument 0x40000000, and nothing else |
| InitProps.AttemptTrace | Borealis/Borealis/Mainboard_prototype/sdcard.py:93-98 | `j` refused passes write `j` CMD55/CMD41 pairs |
| InitProps.RetryAcceptedTrace | Borealis/Borealis/Mainboard_prototype/sdcard.py:93-97 | a loop whose first accepted pass is `j` has written `j + 1` pairs |
| InitProps.RetryOutcome | Borealis/Borealis/Mainboard_prototype/sdcard.py:93-100 | both loop outcomes: success iff some pass is accepted, ending after the first one with `j + 1` pairs; failure iff all `n` are refused, with `n` pairs and `n` sleeps |
| InitProps.Acmd41LoopFails | Borealis/Borealis/Mainboard_prototype/sdcard.py:93-100 | the ACMD41 loop fails exactly when all passes are refused, after making all of them and writing as many pairs |
| InitProps.Acmd41LoopSucceeds | Borealis/Borealis/Mainboard_prototype/sdcard.py:93-97 | a successful loop stops at the first CMD41 answered 0 |
| InitProps.Acmd41LoopSent | Borealis/Borealis/Mainboard_prototype/sdcard.py:93-97 | a successful loop of `n` passes wrote between 1 and `n` pairs |
| InitProps.Acmd41LoopFrame | Borealis/Borealis/Mainboard_prototype/sdcard.py:93-100 | the loop fills nothing and keeps the speed |
| InitProps.ReadOcrResult | Borealis/Borealis/Mainboard_prototype/sdcard.py:103-113 | `cdv` is 1 exactly when CMD58 answered 0 and OCR bit 30 (byte 0, bit 6) is set, and 512 otherwise; the OCR is read only on a 0 answer |
| InitProps.InitCardCdv | Borealis/Borealis/Mainboard_prototype/sdcard.py:72-122 | `_init_card` leaves `cdv` alone or sets it to 1 or 512, and sets it whenever it gets past the ACMD41 loop |
| InitProps.InitCardResult | Borealis/Borealis/Mainboard_prototype/sdcard.py:103-122 | CMD16(512) is written exactly for `cdv == 512`, its failure raises, and success leaves the bus at the working speed |
| InitProps.Cmd16Check | Borealis/Borealis/Mainboard_prototype/sdcard.py:116-122 | past the ACMD41 loop, "CMD16 failed" is raised exactly for `cdv == 512` with a non-zero CMD16 answer, and initialisation completes in every other case |
| InitProps.InitCardFrames | Borealis/Borealis/Mainboard_prototype/sdcard.py:72-122 | a successful initialisation writes, in order: ten 0xFF, CMD0, CMD8, 1 to 1000 CMD55/CMD41 pairs, CMD58, and CMD16 exactly for byte addressing |
| InitProps.Acmd41TimeoutCheck | Borealis/Borealis/Mainboard_prototype/sdcard.py:93-100 | the ACMD41 timeout is raised exactly when CMD0 passed and all 1000 passes were refused, after exactly 1000 pairs |
| InitProps.InitCardLoopExit | Borealis/Borealis/Mainboard_prototype/sdcard.py:82-100 | the ACMD41 timeout is raised exactly when CMD0 passed and the loop failed, and nothing follows the loop then |
| BlockProps.ReadIntoFinds | Borealis/Borealis/Mainboard_prototype/sdcard.py:192-198 | `_readinto` succeeds exactly when 0xFE is among the next 1001 bytes |
| BlockProps.ReadIntoData | Borealis/Borealis/Mainboard_prototype/sdcard.py:190-202 | the stored bytes are the `n` after the first token, and two CRC bytes follow them |
| BlockProps.ReadIntoResult | Borealis/Borealis/Mainboard_prototype/sdcard.py:190-202 | both outcomes of `_readinto`: a timeout stores nothing; success is one `readinto` of `n` bytes after the first token; no writes, cs and speed unchanged |
| BlockProps.RecvBlocksIsLoop | Borealis/Borealis/Mainboard_prototype/sdcard.py:139-142 | the receive loop is the generic loop over one-block reads |
| BlockProps.ReadBlockReadsOne | Borealis/Borealis/Mainboard_prototype/sdcard.py:141 | a one-block read writes nothing, makes one 512-byte fill on success, and raises only the token timeout |
| BlockProps.ReadBlockToken | Borealis/Borealis/Mainboard_prototype/sdcard.py:141 | a successful one-block read returns the 512 bytes after the first 0xFE within 1001 bytes, and leaves the script just past the two CRC bytes |
| BlockProps.ReadBlockFindsBlock | Borealis/Borealis/Mainboard_prototype/sdcard.py:141 | every successful one-block read returns the data block the script starts with |
| BlockProps.TokenEndFirst | Borealis/Borealis/Mainboard_prototype/sdcard.py:192-198 | the token search finds the first 0xFE within the 1001-byte wait, and finds it whenever there is one |
| BlockProps.RecvLoopQuiet | Borealis/Borealis/Mainboard_prototype/sdcard.py:139-142 | the receive loop writes nothing and raises only the token timeout |
| BlockProps.RecvLoopFills | Borealis/Borealis/Mainboard_prototype/sdcard.py:139-142 | the receive loop's fills are the blocks it reads, each 512 bytes, its data is them concatenated, and all `k` are read on success |
| BlockProps.LoopBlocksFound | Borealis/Borealis/Mainboard_prototype/sdcard.py:139-142 | with reads that each return the data block the script starts with, the blocks the loop reads are the script's data blocks one after the other |
| BlockProps.TokenBlocksCons | Borealis/Borealis/Mainboard_prototype/sdcard.py:139-142 | a data block followed by data blocks is a longer run of data blocks |
| BlockProps.RecvBlocksQuiet | Borealis/Borealis/Mainboard_prototype/sdcard.py:139-142 | the CMD18 receive loop writes nothing and keeps cs and speed |
| BlockProps.RecvBlocksFills | Borealis/Borealis/Mainboard_prototype/sdcard.py:139-142 | the CMD18 data is the 512-byte fills in order, `k` of them on success |
| BlockProps.RecvBlocksTokens | Borealis/Borealis/Mainboard_prototype/sdcard.py:139-142 | the CMD18 fills are the data blocks of the script, in order: each is the 512 bytes after the next 0xFE, following the CRC of the block before |
| BlockProps.ReadSingle | Borealis/Borealis/Mainboard_prototype/sdcard.py:130-134 | CMD17 at `block_num * cdv`; the CMD17 error is raised iff its answer is non-zero; success is one fill of the whole buffer with the bytes after the first 0xFE that follows the response; the card stays selected |
| BlockProps.ReadMulti | Borealis/Borealis/Mainboard_prototype/sdcard.py:135-143 | CMD18 at `block_num * cdv`; the CMD18 error is raised iff its answer is non-zero; success is `len // 512` fills, their bytes as the data, then exactly one CMD12 and the card deselected |
| BlockProps.ReadMultiFills | Borealis/Borealis/Mainboard_prototype/sdcard.py:140-142 | every fill of a completed CMD18 read is 512 bytes |
| BlockProps.ReadMultiTokens | Borealis/Borealis/Mainboard_prototype/sdcard.py:135-143 | the fills of a completed CMD18 read are the data blocks the card sent after its CMD18 response, in order, each the 512 bytes after a 0xFE |
| BlockProps.ReadMultiBlock | Borealis/Borealis/Mainboard_prototype/sdcard.py:140-142 | bytes `512 i .. 512 i + 511` of the data read are the `i`-th block the card sent |
| BlockProps.FlattenLength | Borealis/Borealis/Mainboard_prototype/sdcard.py:140-142 | `n` blocks of 512 bytes laid end to end make `512 n` bytes |
| BlockProps.FlattenBlock | Borealis/Borealis/Mainboard_prototype/sdcard.py:141-142 | with 512-byte blocks laid end to end, block `i` starts at offset `512 i` |
| BlockProps.WriteResult | Borealis/Borealis/Mainboard_prototype/sdcard.py:204-212 | `_write` writes 0xFE, the data and two 0xFF bytes; "data rejected" iff `resp & 0x1F != 5`; success iff accepted and one of the next 500 bytes is 0xFF; no other error |
| BlockProps.ChunksLength | Borealis/Borealis/Mainboard_prototype/sdcard.py:158-162 | `k` CMD25 blocks are `4 k` writes |
| BlockProps.ChunkAt | Borealis/Borealis/Mainboard_prototype/sdcard.py:158-162 | block `j` is the writes `4j..4j+3`: 0xFC, 0xFE, bytes `512 j .. 512 j + 511`, and two CRC bytes |
| BlockProps.PutBlockResult | Borealis/Borealis/Mainboard_prototype/sdcard.py:160-161 | one CMD25 block writes 0xFC, 0xFE, the block and the CRC, and nothing else |
| BlockProps.SendLoopQuiet | Borealis/Borealis/Mainboard_prototype/sdcard.py:158-162 | the send loop fills nothing, keeps cs and speed, and raises only what `_write` raises |
| BlockProps.SendLoopSent | Borealis/Borealis/Mainboard_prototype/sdcard.py:158-162 | a completed send loop wrote its `k` chunks in order; a failed one wrote the first `j` chunks, `1 <= j <= k` (which chunk was refused is `SendLoopStops`) |
| BlockProps.SendLoopStops | Borealis/Borealis/Mainboard_prototype/sdcard.py:158-162 | the send loop succeeds iff every chunk is accepted, ending where the chunks leave the wire; otherwise its outcome is that of the first refused chunk `j`, all chunks before it accepted |
| BlockProps.AcceptedSent | Borealis/Borealis/Mainboard_prototype/sdcard.py:158-162 | after `j` accepted chunks exactly their `j` framed blocks have been written, with fills, cs and speed unchanged |
| BlockProps.SendBlocksQuiet | Borealis/Borealis/Mainboard_prototype/sdcard.py:158-162 | the CMD25 send loop fills nothing and raises only "data rejected" or "timeout after write" |
| BlockProps.SendBlocksStops | Borealis/Borealis/Mainboard_prototype/sdcard.py:158-162 | the CMD25 send loop succeeds iff `_write` accepts every block; otherwise it stops at the first refused block `j`, after blocks `0 .. j - 1` were accepted and written and block `j` was written |
| BlockProps.SendBlocksSent | Borealis/Borealis/Mainboard_prototype/sdcard.py:158-162 | a completed CMD25 send loop wrote exactly its `k` chunks; a failed one wrote the first `j` of them, `1 <= j <= k` |
| BlockProps.ReleaseEnds | Borealis/Borealis/Mainboard_prototype/sdcard.py:165-166 | the end of `writeblocks` deselects and reads one padding byte, and nothing else |
| BlockProps.WriteSingle | Borealis/Borealis/Mainboard_prototype/sdcard.py:145-166 | CMD24 at `block_num * cdv`, error iff its answer is non-zero; then the whole buffer framed by `_write`; rejected iff the response's low bits are not 00101; released on success, still selected on any error |
| BlockProps.WriteMulti | Borealis/Borealis/Mainboard_prototype/sdcard.py:145-166 | CMD25 at `block_num * cdv`, error iff its answer is non-zero; on success CMD25, every chunk, one 0xFD, then release; still selected on any error |
| BlockProps.WriteMultiAccepts | Borealis/Borealis/Mainboard_prototype/sdcard.py:154-166 | a multi-block write succeeds iff CMD25 answers 0 and `_write` accepts every one of the `len // 512` blocks |
| BlockProps.IoctlResult | Borealis/Borealis/Mainboard_prototype/sdcard.py:168-186 | op != 4 gives 0 with no bus activity; a CMD9 failure gives 0; otherwise the raise happens iff no token comes within 1001 bytes, and success decodes the one 16-byte fill into a count of 4 to 2^32, with the card deselected |

## Left out

- Time: `ticks_ms`, `ticks_diff` and `sleep_ms` become the tick counter of `SimBus`, which counts one tick per byte clocked. Real timing and the wrap-around of `ticks_ms` are not modelled, so the two 1000 ms and 500 ms waits are byte budgets here.
- The card's side is a fixed script of bytes, not a card that reacts to the commands. A write followed by a read returning the written data is therefore not a property of this model.
- The SPI clock polarity and phase passed to `spi.init` are always 0; the model keeps only the speed.
- The CRC bytes are the constants the driver writes; nothing computes or checks a CRC.
- A caller-side buffer-length check does not exist in the driver, and none is modelled. A length that is not a multiple of 512 is handled as the code handles it.
- `spi`, `cs` and the clock are three objects in the source. Here they are one `SimBus.Bus`, so their relative order is in a single log.
- `SdCard.SDCard.AwaitReady` takes its pass count as a parameter, and `InitCard` passes 1000. Some other routines are split into helper methods: `PowerUp`, `SendIfCond`, `ReadOcr`, `Pass`, `Acmd41`, `WriteFrame`, `RecvBlocks` and `SendBlocks`.
- `SdCard.SDCard.Ioctl` ignores `arg`, as the source does. As in the source, it does not deselect the card when CMD9 fails.
- The MicroPython `memoryview` slices of `readblocks` are modelled as the bounds `lo..hi` of one array.
- The filesystem layer that calls the driver (VfsFat) is not part of this model. `Pico-code/app/controller.py`, `data-analysis/library.py` and `Borealis/Borealis/Mainboard_prototype/test.py` are not part of this model: they are hardware wiring, plotting and logging scripts.
