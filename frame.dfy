/** The 6-byte command frame of SPI mode (chapter 7 of the SD Physical Layer Simplified
    Specification): start bits `01` and the 6-bit command index, the 32-bit argument most
    significant byte first, then the CRC byte. */
module CommandFrame {
  import opened Bytes

  /** A command as the specification describes it: an index, a 32-bit argument and a CRC byte. */
  datatype Command = Command(index: nat, arg: nat, crc: byte)

  /** Python's `0x40 | cmd` on a byte. */
  function WithStartBits(cmd: byte): byte {
    if (cmd / 64) % 2 == 1 then cmd else cmd + 64
  }

  /** The bytes `_cmd` writes: each argument byte is `(arg >> s) & 0xFF`. */
  function Frame(cmd: byte, arg: nat, crc: byte): (f: seq<byte>)
    ensures |f| == 6
  {
    [WithStartBits(cmd),
     (arg / 0x100_0000) % 256, (arg / 0x1_0000) % 256, (arg / 0x100) % 256, arg % 256,
     crc]
  }

  /** Most significant byte first. */
  function BigEndian(s: seq<byte>): nat {
    if s == [] then 0 else BigEndian(s[..|s| - 1]) * 256 + s[|s| - 1]
  }

  /** What a card reads out of six received bytes; `None` unless the start bits are `01`. */
  function Parse(f: seq<byte>): (c: Option<Command>)
    ensures c.Some? ==> |f| == 6 && c.value.index < 64 && c.value.arg < 0x1_0000_0000
  {
    if |f| == 6 && f[0] / 64 == 1 then
      BigEndianBound(f[1..5]);
      Pow2Values();
      Some(Command(f[0] % 64, BigEndian(f[1..5]), f[5]))
    else None
  }

  datatype Option<T> = None | Some(value: T)

  lemma {:induction false} BigEndianBound(s: seq<byte>)
    ensures BigEndian(s) < Pow2(8 * |s|)
  {
    if s != [] {
      BigEndianBound(s[..|s| - 1]);
      var n := |s| - 1;
      assert Pow2(8 * |s|) == Pow2(8 * n) * 256 by {
        Pow2Add(8 * n, 8);
      }
      assert BigEndian(s[..n]) + 1 <= Pow2(8 * n);
      assert (BigEndian(s[..n]) + 1) * 256 <= Pow2(8 * n) * 256;
    }
  }

  /** The argument bytes of a frame spell out `arg` modulo 2^32: each byte is masked, the
      bits above 32 are dropped, nothing else is lost. */
  lemma FrameArgument(cmd: byte, arg: nat, crc: byte)
    ensures BigEndian(Frame(cmd, arg, crc)[1..5]) == arg % 0x1_0000_0000
  {
    var f := Frame(cmd, arg, crc);
    assert f[1..5] == [f[1], f[2], f[3], f[4]];
    BigEndian4(f[1], f[2], f[3], f[4]);
    var q1, q2, q3 := arg / 0x100, arg / 0x1_0000, arg / 0x100_0000;
    assert q2 == q1 / 256 by { DivStep(arg, 0x100); }
    assert q3 == q2 / 256 by { DivStep(arg, 0x1_0000); }
    var q4 := q3 / 256;
    assert arg == 256 * q1 + f[4];
    assert q1 == 256 * q2 + f[3];
    assert q2 == 256 * q3 + f[2];
    assert q3 == 256 * q4 + f[1];
    var low := ((f[1] as int * 256 + f[2]) * 256 + f[3]) * 256 + f[4];
    assert arg == 0x1_0000_0000 * q4 + low;
    assert 0 <= low < 0x1_0000_0000;
    assert BigEndian(f[1..5]) == low;
    ModOfSplit(arg, q4, low);
  }

  /** Euclidean division by 2^32 is unique. */
  lemma ModOfSplit(x: nat, q: nat, r: nat)
    requires x == 0x1_0000_0000 * q + r && r < 0x1_0000_0000
    ensures x % 0x1_0000_0000 == r
  {
  }

  /** `(x / d) / 256 == x / (256 d)`, for the constant divisors the frame uses. */
  lemma DivStep(x: nat, d: nat)
    requires d == 0x100 || d == 0x1_0000
    ensures (x / d) / 256 == x / (256 * d)
  {
  }

  lemma BigEndian4(b1: byte, b2: byte, b3: byte, b4: byte)
    ensures BigEndian([b1, b2, b3, b4]) == ((b1 as int * 256 + b2) * 256 + b3) * 256 + b4
  {
    assert [b1, b2, b3, b4][..3] == [b1, b2, b3];
    assert [b1, b2, b3][..2] == [b1, b2];
    assert [b1, b2][..1] == [b1];
    assert [b1][..0] == [];
    assert BigEndian([b1]) == b1;
    assert BigEndian([b1, b2]) == b1 as int * 256 + b2;
    assert BigEndian([b1, b2, b3]) == (b1 as int * 256 + b2) * 256 + b3;
  }

  /** The header byte carries the start bits `01` followed by the index. */
  lemma FrameHeader(cmd: byte, arg: nat, crc: byte)
    requires cmd < 64
    ensures Frame(cmd, arg, crc)[0] == 0x40 + cmd
    ensures Frame(cmd, arg, crc)[0] / 64 == 1 && Frame(cmd, arg, crc)[0] % 64 == cmd
    ensures Frame(cmd, arg, crc)[5] == crc
  {
  }

  /** A card reading a frame the driver sent recovers the command; for a 32-bit argument
      this is the whole command. */
  lemma ParseFrame(cmd: byte, arg: nat, crc: byte)
    requires cmd < 64
    ensures Parse(Frame(cmd, arg, crc)) == Some(Command(cmd, arg % 0x1_0000_0000, crc))
    ensures arg < 0x1_0000_0000 ==> Parse(Frame(cmd, arg, crc)) == Some(Command(cmd, arg, crc))
  {
    FrameHeader(cmd, arg, crc);
    FrameArgument(cmd, arg, crc);
  }
}
