/** What `_init_card` (sdcard.py lines 72-122) promises. */
module InitProps {
  import opened Bytes
  import opened SimBus
  import opened Trace
  import opened CommandFrame
  import opened Protocol
  import opened PollProps
  import opened CommandProps

  /** `n` copies of the one-byte write `0xFF`. */
  function Dummies(n: nat): seq<seq<byte>> {
    if n == 0 then [] else [[0xFF]] + Dummies(n - 1)
  }

  /** Power-up: the bus runs at 100 kHz, the card is deselected and ten 0xFF bytes are
      written, nothing else. */
  lemma PowerUpTrace(w: Wire)
    ensures var p := PowerUp(w);
      p.sent == w.sent + Dummies(10) && p.filled == w.filled
      && p.csHigh && p.baud == INIT_BAUDRATE && p.miso == w.miso
  {
    var w0 := SetCsLevel(Reconfigure(w, INIT_BAUDRATE), true);
    DummyBytesTrace(w0, 10);
  }

  lemma {:induction false} DummyBytesTrace(w: Wire, k: nat)
    ensures var d := DummyBytes(w, k);
      d.sent == w.sent + Dummies(k) && d.filled == w.filled
      && d.csHigh == w.csHigh && d.baud == w.baud && d.miso == w.miso
    decreases k
  {
    if k > 0 {
      DummyBytesTrace(Send(w, [0xFF]), k - 1);
      assert w.sent + [[0xFF]] + Dummies(k - 1) == w.sent + Dummies(k);
    }
  }

  /** The reset check (lines 82-84): `_init_card` raises "no SD card" exactly when the CMD0
      response is neither idle (1) nor 0, and then nothing after CMD0 has happened. */
  lemma ResetCheck(w: Wire, cdv: nat, baudrate: nat)
    ensures var r0 := Reset(PowerUp(w)); var c := InitCard(w, cdv, baudrate);
      (c.out == Fail(NoCard) <==> r0.r != 1 && r0.r != 0)
      && (c.out == Fail(NoCard) ==> c.w == r0.w && c.cdv == cdv)
  {
  }

  /** A CMD8 timeout reads as -1, and `-1 & 4` is non-zero in Python, so no echo is read. */
  lemma NoEchoAfterTimeout()
    ensures !EchoFollows(-1)
  {
    MinusOneHasAllBits(R1_ILLEGAL_COMMAND);
  }

  /** On a response byte, the echo is read exactly when the illegal-command bit (value 4) is
      clear. */
  lemma EchoFollowsBit(r: byte)
    ensures EchoFollows(r) <==> (r / 4) % 2 == 0
  {
    assert Pow2(R1_ILLEGAL_COMMAND) == 4;
  }

  /** What CMD8 (lines 86-90) reads after its response: after a timeout (-1) nothing more,
      and after a response byte the 4-byte echo exactly when the illegal-command bit (4) is
      clear; nothing else happens after `_cmd`. */
  lemma IfCondEcho(w: Wire)
    ensures var c := Cmd(w, 8, 0x1AA, 0x87); var i := IfCond(w);
      (c.r == -1 ==> i == c.w)
      && (0 <= c.r < 256 ==>
            (i == Exchange(c.w, 4, 0xFF) <==> (c.r / 4) % 2 == 0)
            && ((c.r / 4) % 2 != 0 ==> i == c.w))
  {
    var c := Cmd(w, 8, 0x1AA, 0x87);
    NoEchoAfterTimeout();
    if 0 <= c.r < 256 {
      EchoFollowsBit(c.r);
      assert Exchange(c.w, 4, 0xFF).log != c.w.log;
    }
  }

  /** CMD8 writes one frame; the 4-byte echo is a read, so it writes nothing more. */
  lemma IfCondTrace(w: Wire)
    ensures var i := IfCond(w);
      i.sent == w.sent + [Frame(8, 0x1AA, 0x87)] && i.filled == w.filled
      && i.csHigh == false && i.baud == w.baud
  {
    CmdTrace(w, 8, 0x1AA, 0x87);
  }

  /** Everything before the ACMD41 loop writes ten 0xFF bytes, CMD0 and CMD8, and fills
      nothing. */
  lemma PreambleTrace(w: Wire)
    ensures var i := IfCond(Reset(PowerUp(w)).w);
      i.sent == w.sent + Dummies(10) + [Frame(0, 0, 0x95), Frame(8, 0x1AA, 0x87)]
      && i.filled == w.filled
  {
    var p := PowerUp(w);
    PowerUpTrace(w);
    var r0 := Reset(p);
    CmdTrace(p, 0, 0, 0x95);
    IfCondTrace(r0.w);
  }

  // ---------------------------------------------------------------- the ACMD41 loop

  /** The bus after `j` refused passes, each followed by its 1 ms sleep. */
  function Attempt(step: Wire -> Resp, w: Wire, j: nat): Wire
    decreases j
  {
    if j == 0 then w else Attempt(step, Delay(step(w).w, 1), j - 1)
  }

  /** Passes `0 .. j-1` from `w` are all refused (answered other than 0). */
  ghost predicate Refused(step: Wire -> Resp, w: Wire, j: nat) {
    forall i :: 0 <= i < j ==> step(Attempt(step, w, i)).r != 0
  }

  /** When all `n` passes are refused, the loop ends unsuccessfully after making all of them. */
  lemma {:induction false} RetryRefused(step: Wire -> Resp, w: Wire, n: nat)
    requires Refused(step, w, n)
    ensures Retry(step, w, n) == Flag(Attempt(step, w, n), false)
    decreases n
  {
    if n > 0 {
      var w' := Delay(step(w).w, 1);
      assert step(Attempt(step, w, 0)).r != 0;
      forall i | 0 <= i < n - 1
        ensures step(Attempt(step, w', i)).r != 0
      {
        assert step(Attempt(step, w, i + 1)).r != 0;
      }
      RetryRefused(step, w', n - 1);
    }
  }

  /** When pass `j` is the first one answered 0, the loop ends successfully right after it. */
  lemma {:induction false} RetryAccepted(step: Wire -> Resp, w: Wire, n: nat, j: nat)
    requires j < n && Refused(step, w, j) && step(Attempt(step, w, j)).r == 0
    ensures Retry(step, w, n) == Flag(step(Attempt(step, w, j)).w, true)
    decreases j
  {
    if j > 0 {
      var w' := Delay(step(w).w, 1);
      assert step(Attempt(step, w, 0)).r != 0;
      forall i | 0 <= i < j - 1
        ensures step(Attempt(step, w', i)).r != 0
      {
        assert step(Attempt(step, w, i + 1)).r != 0;
      }
      RetryAccepted(step, w', n - 1, j - 1);
    }
  }

  /** Among the first `n` indices, some satisfies `p`: then there is a least one. */
  lemma FirstTrue(p: nat -> bool, n: nat) returns (j: nat)
    requires exists j :: 0 <= j < n && p(j)
    ensures j < n && p(j) && forall i :: 0 <= i < j ==> !p(i)
  {
    j := 0;
    while !p(j)
      invariant j < n && forall i :: 0 <= i < j ==> !p(i)
      invariant exists j' :: j <= j' < n && p(j')
      decreases n - j
    {
      j := j + 1;
    }
  }

  /** Some pass among the first `n` is answered 0: then there is a first one. */
  lemma FirstAccepted(step: Wire -> Resp, w: Wire, n: nat) returns (j: nat)
    requires exists j :: 0 <= j < n && step(Attempt(step, w, j)).r == 0
    ensures j < n && Refused(step, w, j) && step(Attempt(step, w, j)).r == 0
  {
    var p := (i: nat) => step(Attempt(step, w, i)).r == 0;
    var j0 :| 0 <= j0 < n && step(Attempt(step, w, j0)).r == 0;
    assert p(j0);
    j := FirstTrue(p, n);
    forall i | 0 <= i < j
      ensures step(Attempt(step, w, i)).r != 0
    {
      assert !p(i);
    }
  }

  /** The loop with `n` passes succeeds exactly when some pass is answered 0; when it fails,
      all `n` passes were refused and made, each followed by a 1 ms sleep. */
  lemma RetryResult(step: Wire -> Resp, w: Wire, n: nat)
    ensures var l := Retry(step, w, n);
      (l.ok <==> exists j :: 0 <= j < n && step(Attempt(step, w, j)).r == 0)
      && (!l.ok ==> l.w == Attempt(step, w, n) && Refused(step, w, n))
  {
    if exists j :: 0 <= j < n && step(Attempt(step, w, j)).r == 0 {
      var j := FirstAccepted(step, w, n);
      RetryAccepted(step, w, n, j);
    } else {
      RetryRefused(step, w, n);
    }
  }

  /** The two frames of one pass: CMD55 (APP_CMD), then CMD41 with HCS (bit 30) set. */
  function AcmdFrames(n: nat): seq<seq<byte>> {
    if n == 0 then [] else [Frame(55, 0, 0x65), Frame(41, 0x4000_0000, 0x77)] + AcmdFrames(n - 1)
  }

  /** One pass writes CMD55 and CMD41, fills nothing and keeps the bus speed. */
  lemma Acmd41Trace(w: Wire)
    ensures var a := Acmd41(w);
      a.w.sent == w.sent + [Frame(55, 0, 0x65), Frame(41, 0x4000_0000, 0x77)]
      && a.w.filled == w.filled && a.w.baud == w.baud
  {
    var c1 := Cmd(w, 55, 0, 0x65);
    CmdTrace(w, 55, 0, 0x65);
    CmdTrace(c1.w, 41, 0x4000_0000, 0x77);
  }

  /** Predicate: a pass that writes the CMD55/CMD41 pair and nothing else. */
  ghost predicate WritesAcmdPair(step: Wire -> Resp) {
    forall x :: step(x).w.sent == x.sent + [Frame(55, 0, 0x65), Frame(41, 0x4000_0000, 0x77)]
      && step(x).w.filled == x.filled && step(x).w.baud == x.baud
  }

  lemma Acmd41WritesAcmdPair()
    ensures WritesAcmdPair(Acmd41)
  {
    forall x {
      Acmd41Trace(x);
    }
  }

  /** `j` refused passes wrote `j` CMD55/CMD41 pairs and nothing else. */
  lemma {:induction false} AttemptTrace(step: Wire -> Resp, w: Wire, j: nat)
    requires WritesAcmdPair(step)
    ensures var v := Attempt(step, w, j);
      v.sent == w.sent + AcmdFrames(j) && v.filled == w.filled && v.baud == w.baud
    decreases j
  {
    if j > 0 {
      var w' := Delay(step(w).w, 1);
      AttemptTrace(step, w', j - 1);
      assert w.sent + [Frame(55, 0, 0x65), Frame(41, 0x4000_0000, 0x77)] + AcmdFrames(j - 1)
        == w.sent + AcmdFrames(j);
    }
  }

  lemma {:induction false} AcmdFramesAppend(k: nat)
    ensures AcmdFrames(k) + [Frame(55, 0, 0x65), Frame(41, 0x4000_0000, 0x77)] == AcmdFrames(k + 1)
    decreases k
  {
    if k > 0 {
      AcmdFramesAppend(k - 1);
      assert AcmdFrames(k) == [Frame(55, 0, 0x65), Frame(41, 0x4000_0000, 0x77)] + AcmdFrames(k - 1);
    }
  }

  /** When pass `j` is the first one answered 0, the loop has written `j + 1` pairs. */
  lemma RetryAcceptedTrace(step: Wire -> Resp, w: Wire, n: nat, j: nat)
    requires WritesAcmdPair(step)
    requires j < n && Refused(step, w, j) && step(Attempt(step, w, j)).r == 0
    ensures var l := Retry(step, w, n);
      l.w == step(Attempt(step, w, j)).w && l.w.sent == w.sent + AcmdFrames(j + 1)
      && l.w.filled == w.filled && l.w.baud == w.baud
  {
    RetryAccepted(step, w, n, j);
    AttemptTrace(step, w, j);
    AcmdFramesAppend(j);
  }

  /** Everything the loop does, for a pass that writes one CMD55/CMD41 pair: it succeeds
      exactly when some pass is answered 0, and then it stops right after the first such pass
      `j`, having written `j + 1` pairs; it fails exactly when all `n` passes are refused, and
      then it has made all of them, each followed by a sleep, and written `n` pairs. */
  lemma RetryOutcome(step: Wire -> Resp, w: Wire, n: nat)
    requires WritesAcmdPair(step)
    ensures var l := Retry(step, w, n);
      (l.ok <==> exists j :: 0 <= j < n && step(Attempt(step, w, j)).r == 0)
      && (l.ok ==> exists j :: 0 <= j < n && Refused(step, w, j) && step(Attempt(step, w, j)).r == 0
                     && l.w == step(Attempt(step, w, j)).w && l.w.sent == w.sent + AcmdFrames(j + 1))
      && (!l.ok <==> Refused(step, w, n))
      && (!l.ok ==> l.w == Attempt(step, w, n) && l.w.sent == w.sent + AcmdFrames(n))
      && l.w.filled == w.filled && l.w.baud == w.baud
  {
    RetryResult(step, w, n);
    if Retry(step, w, n).ok {
      var j := FirstAccepted(step, w, n);
      RetryAcceptedTrace(step, w, n, j);
    } else {
      AttemptTrace(step, w, n);
    }
  }

  /** The ACMD41 loop (lines 93-100) with `n` passes fails exactly when all `n` passes are
      refused; it has then made all of them, each followed by a 1 ms sleep, and written `n`
      CMD55/CMD41 pairs. */
  lemma Acmd41LoopFails(w: Wire, n: nat)
    ensures var l := Acmd41Loop(w, n);
      (!l.ok <==> Refused(Acmd41, w, n))
      && (!l.ok ==> l.w == Attempt(Acmd41, w, n) && l.w.sent == w.sent + AcmdFrames(n))
  {
    Acmd41WritesAcmdPair();
    RetryOutcome(Acmd41, w, n);
  }

  /** A successful ACMD41 loop ends right after the first pass `j` answered 0, having written
      `j + 1` CMD55/CMD41 pairs. */
  lemma Acmd41LoopSucceeds(w: Wire, n: nat)
    ensures var l := Acmd41Loop(w, n);
      l.ok ==> exists j :: 0 <= j < n && Refused(Acmd41, w, j) && Acmd41(Attempt(Acmd41, w, j)).r == 0
                 && l.w == Acmd41(Attempt(Acmd41, w, j)).w && l.w.sent == w.sent + AcmdFrames(j + 1)
  {
    Acmd41WritesAcmdPair();
    RetryOutcome(Acmd41, w, n);
  }

  /** A successful ACMD41 loop of `n` passes has written between 1 and `n` pairs. */
  lemma Acmd41LoopSent(w: Wire, n: nat)
    ensures var l := Acmd41Loop(w, n);
      l.ok ==> exists k :: 1 <= k <= n && l.w.sent == w.sent + AcmdFrames(k)
  {
    var l := Acmd41Loop(w, n);
    Acmd41LoopSucceeds(w, n);
    if l.ok {
      var j :| 0 <= j < n && l.w.sent == w.sent + AcmdFrames(j + 1);
      assert 1 <= j + 1 <= n;
    }
  }

  /** The ACMD41 loop fills no buffer and keeps the bus speed. */
  lemma Acmd41LoopFrame(w: Wire, n: nat)
    ensures var l := Acmd41Loop(w, n);
      l.w.filled == w.filled && l.w.baud == w.baud
  {
    Acmd41WritesAcmdPair();
    RetryOutcome(Acmd41, w, n);
  }

  // ---------------------------------------------------------------- OCR and block length

  /** CMD58 (lines 103-113): `cdv` becomes 1 exactly when CMD58 answered 0 and bit 6 of the
      first OCR byte (the card capacity status) is set, and 512 otherwise; the four OCR bytes
      are read with `readinto` only after a 0 answer. */
  lemma ReadOcrResult(w: Wire)
    ensures var c := Cmd(w, 58, 0, 0xFD); var o := ReadOcr(w);
      (o.cdv == 1 <==> c.r == 0 && TestBit(Peek(c.w.miso, 0), 6))
      && (o.cdv == 1 || o.cdv == 512) && o.out == Done
      && o.w.sent == w.sent + [Frame(58, 0, 0xFD)]
      && o.w.filled == w.filled + (if c.r == 0 then [Take(c.w.miso, 4)] else [])
      && o.w.baud == w.baud
  {
    var c := Cmd(w, 58, 0, 0xFD);
    CmdTrace(w, 58, 0, 0xFD);
  }

  /** The outcome of `_init_card` after the ACMD41 loop: CMD16 is written exactly when `cdv`
      is 512; its failure leaves `cdv` at 512; on success the bus runs at `baudrate`. */
  lemma InitCardResult(w: Wire, cdv: nat, baudrate: nat)
    ensures var c := InitCard(w, cdv, baudrate);
      var a := Acmd41Loop(IfCond(Reset(PowerUp(w)).w), ACMD41_TRIES);
      var o := ReadOcr(a.w);
      (c.out != Fail(NoCard) && c.out != Fail(Acmd41Timeout) ==>
         c.cdv == o.cdv
         && c.w.sent == o.w.sent + (if o.cdv == 512 then [Frame(16, 512, 0x15)] else []))
      && (c.out.Done? ==> (c.cdv == 1 || c.cdv == 512) && c.w.baud == baudrate)
      && (c.out == Fail(Cmd16Failed) ==> c.cdv == 512 && SetBlockLen(o.w).r != 0)
  {
    var a := Acmd41Loop(IfCond(Reset(PowerUp(w)).w), ACMD41_TRIES);
    var o := ReadOcr(a.w);
    ReadOcrResult(a.w);
    CmdTrace(o.w, 16, 512, 0x15);
  }

  /** `cdv` only ever holds one of the two addressing units: `_init_card` either leaves it
      alone (when it raises before CMD58) or sets it to 1 or 512 (lines 103-113). */
  lemma InitCardCdv(w: Wire, cdv: nat, baudrate: nat)
    ensures var c := InitCard(w, cdv, baudrate);
      (c.cdv == cdv || c.cdv == 1 || c.cdv == 512)
      && (c.cdv != cdv ==> c.cdv == 1 || c.cdv == 512)
      && (c.out != Fail(NoCard) && c.out != Fail(Acmd41Timeout) ==> c.cdv == 1 || c.cdv == 512)
  {
    var a := Acmd41Loop(IfCond(Reset(PowerUp(w)).w), ACMD41_TRIES);
    ReadOcrResult(a.w);
  }

  /** The last two checks of `_init_card` (lines 116-122): once CMD0 passed and the ACMD41 loop
      succeeded, "CMD16 failed" is raised exactly for a byte-addressed card whose CMD16 was
      not answered 0, and initialisation completes in every other case. */
  lemma Cmd16Check(w: Wire, cdv: nat, baudrate: nat)
    ensures var r0 := Reset(PowerUp(w)); var a := Acmd41Loop(IfCond(r0.w), ACMD41_TRIES);
      var o := ReadOcr(a.w); var c := InitCard(w, cdv, baudrate);
      (c.out == Fail(Cmd16Failed) <==>
         (r0.r == 1 || r0.r == 0) && a.ok && o.cdv == 512 && SetBlockLen(o.w).r != 0)
      && (c.out.Done? <==>
         (r0.r == 1 || r0.r == 0) && a.ok && (o.cdv != 512 || SetBlockLen(o.w).r == 0))
  {
  }

  /** Everything a successful `_init_card` writes, in order: ten 0xFF bytes, CMD0, CMD8, one
      CMD55/CMD41 pair per pass of the ACMD41 loop (between 1 and 1000 passes), CMD58, and
      CMD16 exactly for a byte-addressed card. */
  lemma InitCardFrames(w: Wire, cdv: nat, baudrate: nat)
    ensures var c := InitCard(w, cdv, baudrate);
      c.out.Done? ==>
        exists k :: 1 <= k <= ACMD41_TRIES
          && c.w.sent == w.sent + Dummies(10) + [Frame(0, 0, 0x95), Frame(8, 0x1AA, 0x87)]
             + AcmdFrames(k) + [Frame(58, 0, 0xFD)]
             + (if c.cdv == 512 then [Frame(16, 512, 0x15)] else [])
  {
    var c := InitCard(w, cdv, baudrate);
    if c.out.Done? {
      var i := IfCond(Reset(PowerUp(w)).w);
      PreambleTrace(w);
      var a := Acmd41Loop(i, ACMD41_TRIES);
      Acmd41LoopSent(i, ACMD41_TRIES);
      var k :| 1 <= k <= ACMD41_TRIES && a.w.sent == i.sent + AcmdFrames(k);
      ReadOcrResult(a.w);
      InitCardResult(w, cdv, baudrate);
    }
  }

  /** The ACMD41 timeout (lines 99-100): raised exactly when CMD0 passed and all 1000 passes
      were refused; by then exactly 1000 CMD55/CMD41 pairs have been written after CMD8. */
  lemma Acmd41TimeoutCheck(w: Wire, cdv: nat, baudrate: nat)
    ensures var r0 := Reset(PowerUp(w)); var i := IfCond(r0.w); var c := InitCard(w, cdv, baudrate);
      (c.out == Fail(Acmd41Timeout) <==> (r0.r == 1 || r0.r == 0) && Refused(Acmd41, i, ACMD41_TRIES))
      && (c.out == Fail(Acmd41Timeout) ==>
           c.w == Attempt(Acmd41, i, ACMD41_TRIES) && c.w.sent == i.sent + AcmdFrames(ACMD41_TRIES))
  {
    var r0 := Reset(PowerUp(w));
    var i := IfCond(r0.w);
    Acmd41LoopFails(i, ACMD41_TRIES);
    InitCardLoopExit(w, cdv, baudrate);
  }

  /** `_init_card` raises the ACMD41 timeout exactly when CMD0 passed and the loop failed, and
      then nothing follows the loop. */
  lemma InitCardLoopExit(w: Wire, cdv: nat, baudrate: nat)
    ensures var r0 := Reset(PowerUp(w)); var a := Acmd41Loop(IfCond(r0.w), ACMD41_TRIES);
      var c := InitCard(w, cdv, baudrate);
      (c.out == Fail(Acmd41Timeout) <==> (r0.r == 1 || r0.r == 0) && !a.ok)
      && (c.out == Fail(Acmd41Timeout) ==> c.w == a.w)
  {
  }
}
