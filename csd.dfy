/** Decoding the card's capacity from its 16-byte CSD register, as `ioctl(4, …)` does.
    Section 5.3 of the SD Physical Layer Simplified Specification defines two layouts,
    told apart by the CSD_STRUCTURE field in the top two bits of byte 0. */
module Csd {
  import opened Bytes

  /** Python's `csd[0] >> 6 == 1`: the version 2.0 layout. */
  predicate IsVersion2(csd: seq<byte>)
    requires |csd| >= 1
  {
    csd[0] / Pow2(6) == 1
  }

  /** Version 2.0 C_SIZE: `((csd[7] & 0x3F) << 16) | (csd[8] << 8) | csd[9]`
      (masking a non-negative value with `2^k - 1` keeps it modulo `2^k`). */
  function CSizeV2(csd: seq<byte>): nat
    requires |csd| >= 10
  {
    BitOr(BitOr((csd[7] % 64) * Pow2(16), csd[8] * Pow2(8)), csd[9])
  }

  /** Version 1.0 C_SIZE: `((csd[6] & 0x03) << 10) | (csd[7] << 2) | (csd[8] >> 6)`. */
  function CSizeV1(csd: seq<byte>): nat
    requires |csd| >= 9
  {
    BitOr(BitOr((csd[6] % 4) * Pow2(10), csd[7] * Pow2(2)), csd[8] / Pow2(6))
  }

  /** Version 1.0 C_SIZE_MULT: `((csd[9] & 0x03) << 1) | (csd[10] >> 7)`. */
  function CSizeMult(csd: seq<byte>): nat
    requires |csd| >= 11
  {
    BitOr((csd[9] % 4) * Pow2(1), csd[10] / Pow2(7))
  }

  /** The block count `ioctl(4, …)` returns for a CSD it has read. */
  function BlockCount(csd: seq<byte>): nat
    requires |csd| == 16
  {
    if IsVersion2(csd) then (CSizeV2(csd) + 1) * 1024
    else (CSizeV1(csd) + 1) * Pow2(CSizeMult(csd) + 2)
  }

  /** The version 2.0 size field is the 22 bits `csd[7][5:0] csd[8] csd[9]`. */
  lemma CSizeV2Value(csd: seq<byte>)
    requires |csd| >= 10
    ensures CSizeV2(csd) == (csd[7] as int % 64) * 0x1_0000 + csd[8] as int * 0x100 + csd[9]
    ensures CSizeV2(csd) < Pow2(22)
  {
    Pow2Values();
    var a, b, c: int := csd[7] % 64, csd[8], csd[9];
    BitOrDisjoint(a, b * Pow2(8), 16);
    assert a * Pow2(16) + b * Pow2(8) == (a * 256 + b) * Pow2(8);
    BitOrDisjoint(a * 256 + b, c, 8);
    assert Pow2(22) == 64 * 0x1_0000 by { Pow2Add(6, 16); }
  }

  /** The version 1.0 size field is the 12 bits `csd[6][1:0] csd[7] csd[8][7:6]`. */
  lemma CSizeV1Value(csd: seq<byte>)
    requires |csd| >= 9
    ensures CSizeV1(csd) == (csd[6] as int % 4) * 1024 + csd[7] as int * 4 + csd[8] / 64
    ensures CSizeV1(csd) < 4096
  {
    Pow2Values();
    var a, b, c: int := csd[6] % 4, csd[7], csd[8] / 64;
    assert Pow2(10) == 1024 by { Pow2Add(8, 2); }
    BitOrDisjoint(a, b * Pow2(2), 10);
    assert a * Pow2(10) + b * Pow2(2) == (a * 256 + b) * Pow2(2);
    BitOrDisjoint(a * 256 + b, c, 2);
  }

  /** The multiplier is the 3 bits `csd[9][1:0] csd[10][7]`. */
  lemma CSizeMultValue(csd: seq<byte>)
    requires |csd| >= 11
    ensures CSizeMult(csd) == (csd[9] % 4) * 2 + csd[10] / 128
    ensures CSizeMult(csd) < 8
  {
    Pow2Values();
    assert Pow2(7) == 128;
    BitOrDisjoint(csd[9] % 4, csd[10] / Pow2(7), 1);
  }

  /** CSD version 2.0: the count is `(C_SIZE + 1) * 1024` for a 22-bit C_SIZE, so it lies in
      1024 .. 2^32 and all-zero size bits give 1024. */
  lemma {:induction false} BlockCountV2(csd: seq<byte>)
    requires |csd| == 16 && IsVersion2(csd)
    ensures BlockCount(csd) == (CSizeV2(csd) + 1) * 1024
    ensures 0 <= CSizeV2(csd) < 0x40_0000
    ensures 1024 <= BlockCount(csd) <= 0x1_0000_0000
    ensures csd[7] % 64 == 0 && csd[8] == 0 && csd[9] == 0 ==> BlockCount(csd) == 1024
  {
    CSizeV2Value(csd);
    Pow2Values();
    assert Pow2(22) == 0x40_0000 by { Pow2Add(6, 16); }
  }

  /** CSD version 1.0 (every other CSD_STRUCTURE value): the count is
      `(C_SIZE + 1) * 2^(C_SIZE_MULT + 2)` with a 12-bit C_SIZE and a 3-bit multiplier, so it lies
      in 4 .. 2^21 and all-zero fields give 4. */
  lemma {:induction false} BlockCountV1(csd: seq<byte>)
    requires |csd| == 16 && !IsVersion2(csd)
    ensures BlockCount(csd) == (CSizeV1(csd) + 1) * Pow2(CSizeMult(csd) + 2)
    ensures CSizeV1(csd) < 4096 && CSizeMult(csd) < 8
    ensures 4 <= BlockCount(csd) <= 0x20_0000
    ensures (csd[6] % 4 == 0 && csd[7] == 0 && csd[8] / 64 == 0 && csd[9] % 4 == 0 && csd[10] / 128 == 0)
      ==> BlockCount(csd) == 4
  {
    CSizeV1Value(csd);
    CSizeMultValue(csd);
    var c, m := CSizeV1(csd), CSizeMult(csd);
    Pow2Monotone(m + 2, 9);
    assert Pow2(9) == 512 by { Pow2Values(); }
    assert Pow2(2) == 4;
    Pow2Monotone(2, m + 2);
    assert (c + 1) * Pow2(m + 2) <= 4096 * 512 by {
      MulMonotone(c + 1, 4096, Pow2(m + 2), 512);
    }
    assert 1 * 4 <= (c + 1) * Pow2(m + 2) by {
      MulMonotone(1, c + 1, 4, Pow2(m + 2));
    }
  }

  lemma {:induction false} Pow2Monotone(j: nat, k: nat)
    requires j <= k
    ensures Pow2(j) <= Pow2(k)
    decreases k
  {
    if j < k {
      Pow2Monotone(j, k - 1);
    }
  }

  lemma MulMonotone(a: nat, b: nat, c: nat, d: nat)
    requires a <= b && c <= d
    ensures a * c <= b * d
  {
    assert a * c <= b * c;
    assert b * c <= b * d;
  }
}
