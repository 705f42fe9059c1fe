/** What `_cmd` and `_cmd_nodata` (sdcard.py lines 42-68) do on the wire. */
module CommandProps {
  import opened Bytes
  import opened SimBus
  import opened Trace
  import opened CommandFrame
  import opened Protocol
  import opened PollProps

  /** `_cmd` writes exactly one thing, the 6-byte frame, fills nothing, leaves the card
      selected and answers -1 or a response byte with bit 7 clear. */
  lemma CmdTrace(w: Wire, cmd: byte, arg: nat, crc: byte)
    ensures var c := Cmd(w, cmd, arg, crc);
      c.w.sent == w.sent + [Frame(cmd, arg, crc)] && c.w.filled == w.filled
      && !c.w.csHigh && c.w.baud == w.baud
      && (c.r == -1 || 0 <= c.r < 0x80)
  {
    var w0 := SetCsLevel(w, true);
    var w1 := Exchange(w0, 1, 0xFF);
    var w1' := SetCsLevel(w1, false);
    var w2 := WaitReady(w1').w;
    WaitLoopQuiet(w1', w1'.now, READY_TIMEOUT);
    var w3 := Send(w2, Frame(cmd, arg, crc));
    PollR1Quiet(w3, CMD_TIMEOUT);
    PollR1Range(w3, CMD_TIMEOUT);
  }

  /** `_cmd_nodata` is `_cmd` with the default CRC 0x95, after which the card is deselected. */
  lemma CmdNoDataTrace(w: Wire, cmd: byte, arg: nat)
    ensures var c := CmdNoData(w, cmd, arg);
      c.w.sent == w.sent + [Frame(cmd, arg, 0x95)] && c.w.filled == w.filled
      && c.w.csHigh && c.w.baud == w.baud
      && c.r == Cmd(w, cmd, arg, 0x95).r
  {
    CmdTrace(w, cmd, arg, 0x95);
  }

  /** The card decodes the frame `_cmd` last wrote back into the command index, the argument
      modulo 2^32 (all of it for a 32-bit argument) and the CRC byte. */
  lemma CmdDelivers(w: Wire, cmd: byte, arg: nat, crc: byte)
    requires cmd < 64
    ensures var s := Cmd(w, cmd, arg, crc).w.sent;
      |s| > 0 && Parse(s[|s| - 1]) == Some(Command(cmd, arg % 0x1_0000_0000, crc))
  {
    CmdTrace(w, cmd, arg, crc);
    ParseFrame(cmd, arg, crc);
  }
}
