/** What the polling loops of the driver promise: how many bytes they clock, which byte stops
    them, and that they send nothing. */
module PollProps {
  import opened Bytes
  import opened SimBus
  import opened Trace
  import opened Protocol

  lemma DropDrop(s: seq<byte>, a: nat, b: nat)
    ensures Drop(Drop(s, a), b) == Drop(s, a + b)
  {
  }

  /** Polls only read: nothing is sent, nothing filled, cs and the bus speed do not change. */
  predicate Quiet(w: Wire, w': Wire) {
    w'.sent == w.sent && w'.filled == w.filled
    && w'.csHigh == w.csHigh && w'.baud == w.baud
  }

  lemma {:induction false} PollR1Quiet(w: Wire, budget: nat)
    ensures Quiet(w, PollR1(w, budget).w)
    decreases budget
  {
    if budget > 0 {
      PollR1Quiet(Exchange(w, 1, 0xFF), budget - 1);
    }
  }

  /** The R1 poll clocks `m` bytes, `m <= budget`, all of them when it gives up with -1,
      and otherwise answers the last byte it clocked, which has bit 7 clear. */
  lemma {:induction false} PollR1Count(w: Wire, budget: nat)
    ensures var p := PollR1(w, budget); var m := p.w.now - w.now;
      0 <= m <= budget && p.w.miso == Drop(w.miso, m)
      && (p.r == -1 ==> m == budget)
      && (p.r != -1 ==> 0 < m && p.r == Peek(w.miso, m - 1) < 0x80)
    decreases budget
  {
    if budget > 0 && Peek(w.miso, 0) >= 0x80 {
      var w' := Exchange(w, 1, 0xFF);
      var p := PollR1(w', budget - 1);
      assert PollR1(w, budget) == p;
      PollR1Count(w', budget - 1);
      var m' := p.w.now - w'.now;
      DropDrop(w.miso, 1, m');
      if p.r != -1 {
        PeekDrop(w.miso, 1, m' - 1);
      }
    }
  }

  /** Every byte the R1 poll clocked before the one it stopped at has bit 7 set. */
  lemma {:induction false} PollR1Skips(w: Wire, budget: nat)
    ensures var p := PollR1(w, budget); var m := p.w.now - w.now;
      forall i :: 0 <= i < m && (p.r == -1 || i < m - 1) ==> Peek(w.miso, i) >= 0x80
    decreases budget
  {
    if budget > 0 && Peek(w.miso, 0) >= 0x80 {
      var w' := Exchange(w, 1, 0xFF);
      var p := PollR1(w', budget - 1);
      assert PollR1(w, budget) == p;
      PollR1Skips(w', budget - 1);
      var m' := p.w.now - w'.now;
      forall i | 0 <= i < m' + 1 && (p.r == -1 || i < m')
        ensures Peek(w.miso, i) >= 0x80
      {
        if i > 0 {
          PeekDrop(w.miso, 1, i - 1);
        }
      }
    }
  }

  /** `_cmd`'s R1 poll (lines 59-63): `m` bytes are clocked, `m <= budget`; the result is -1
      exactly when none of the `budget` bytes has bit 7 clear, and otherwise it is the first
      such byte, the `m`-th. */
  lemma PollR1Result(w: Wire, budget: nat)
    ensures var p := PollR1(w, budget); var m := p.w.now - w.now;
      0 <= m <= budget && p.w.miso == Drop(w.miso, m)
      && (p.r == -1 ==> m == budget && forall i :: 0 <= i < budget ==> Peek(w.miso, i) >= 0x80)
      && (p.r != -1 ==> 0 < m && p.r == Peek(w.miso, m - 1) < 0x80
                        && forall i :: 0 <= i < m - 1 ==> Peek(w.miso, i) >= 0x80)
  {
    PollR1Count(w, budget);
    PollR1Skips(w, budget);
  }

  /** The R1 result is -1 or a byte with bit 7 clear; -1 exactly when every polled byte had
      bit 7 set. */
  lemma PollR1Range(w: Wire, budget: nat)
    ensures var r := PollR1(w, budget).r; r == -1 || 0 <= r < 0x80
    ensures PollR1(w, budget).r == -1 <==> forall i :: 0 <= i < budget ==> Peek(w.miso, i) >= 0x80
  {
    PollR1Result(w, budget);
    var p := PollR1(w, budget);
    if p.r != -1 {
      assert Peek(w.miso, p.w.now - w.now - 1) < 0x80;
    }
  }

  lemma {:induction false} WaitLoopQuiet(w: Wire, start: nat, timeout: nat)
    requires start <= w.now <= start + timeout
    ensures Quiet(w, WaitLoop(w, start, timeout).w)
    decreases start + timeout - w.now
  {
    var w' := Exchange(w, 1, 0xFF);
    if Peek(w.miso, 0) != 0xFF && w'.now - start < timeout {
      WaitLoopQuiet(w', start, timeout);
    }
  }

  /** The wait of `_wait_ready` (lines 34-40), entered `w.now - start` ticks after `start`:
      it clocks `m` bytes, at most `Budget` of them, and stops at the first 0xFF; it reports
      false only after `Budget` bytes without one. */
  lemma {:induction false} WaitLoopResult(w: Wire, start: nat, timeout: nat)
    requires start <= w.now <= start + timeout
    ensures var f := WaitLoop(w, start, timeout); var m := f.w.now - w.now;
      var budget := if timeout > w.now - start then timeout - (w.now - start) else 1;
      1 <= m <= budget && f.w.miso == Drop(w.miso, m)
      && (forall i :: 0 <= i < m - 1 ==> Peek(w.miso, i) != 0xFF)
      && (f.ok <==> Peek(w.miso, m - 1) == 0xFF)
      && (!f.ok ==> m == budget)
    decreases start + timeout - w.now
  {
    var f := WaitLoop(w, start, timeout);
    var w' := Exchange(w, 1, 0xFF);
    if Peek(w.miso, 0) != 0xFF && w'.now - start < timeout {
      WaitLoopResult(w', start, timeout);
      var m' := f.w.now - w'.now;
      DropDrop(w.miso, 1, m');
      PeekDrop(w.miso, 1, m' - 1);
      forall i | 0 <= i < m'
        ensures Peek(w.miso, i) != 0xFF
      {
        if i > 0 {
          PeekDrop(w.miso, 1, i - 1);
        }
      }
    }
  }

  /** `_wait_ready(timeout)` returns true exactly when one of the next `max(1, timeout)` bytes
      the card sends is 0xFF. */
  lemma WaitReadyResult(w: Wire, timeout: nat)
    ensures var budget := if timeout > 0 then timeout else 1;
      WaitReady(w, timeout).ok <==> exists i :: 0 <= i < budget && Peek(w.miso, i) == 0xFF
    ensures Quiet(w, WaitReady(w, timeout).w)
  {
    WaitLoopQuiet(w, w.now, timeout);
    WaitLoopResult(w, w.now, timeout);
    var f := WaitReady(w, timeout);
    var m := f.w.now - w.now;
    if f.ok {
      assert Peek(w.miso, m - 1) == 0xFF;
    }
  }

  lemma {:induction false} TokenLoopQuiet(w: Wire, start: nat, timeout: nat)
    requires start <= w.now <= start + timeout
    ensures Quiet(w, TokenLoop(w, start, timeout).w)
    decreases start + timeout - w.now
  {
    var w' := Exchange(w, 1, 0xFF);
    if Peek(w.miso, 0) != TOKEN_DATA && w'.now - start <= timeout {
      TokenLoopQuiet(w', start, timeout);
    }
  }

  /** The data-token wait clocks `m` bytes, at least one and at most `timeout + 1` counted
      from `start`, stops on 0xFE and gives up only after all of them. */
  lemma {:induction false} TokenLoopCount(w: Wire, start: nat, timeout: nat)
    requires start <= w.now <= start + timeout
    ensures var f := TokenLoop(w, start, timeout); var m := f.w.now - w.now;
      var budget := timeout + 1 - (w.now - start);
      1 <= m <= budget && f.w.miso == Drop(w.miso, m)
      && (f.ok <==> Peek(w.miso, m - 1) == TOKEN_DATA)
      && (!f.ok ==> m == budget)
    decreases start + timeout - w.now
  {
    var f := TokenLoop(w, start, timeout);
    var w' := Exchange(w, 1, 0xFF);
    if Peek(w.miso, 0) != TOKEN_DATA && w'.now - start <= timeout {
      assert f == TokenLoop(w', start, timeout);
      TokenLoopCount(w', start, timeout);
      var m' := f.w.now - w'.now;
      DropDrop(w.miso, 1, m');
      PeekDrop(w.miso, 1, m' - 1);
    }
  }

  /** No byte the data-token wait clocked before the last one is 0xFE. */
  lemma {:induction false} TokenLoopSkips(w: Wire, start: nat, timeout: nat)
    requires start <= w.now <= start + timeout
    ensures var f := TokenLoop(w, start, timeout); var m := f.w.now - w.now;
      forall i :: 0 <= i < m - 1 ==> Peek(w.miso, i) != TOKEN_DATA
    decreases start + timeout - w.now
  {
    var f := TokenLoop(w, start, timeout);
    var w' := Exchange(w, 1, 0xFF);
    if Peek(w.miso, 0) != TOKEN_DATA && w'.now - start <= timeout {
      assert f == TokenLoop(w', start, timeout);
      TokenLoopSkips(w', start, timeout);
      var m' := f.w.now - w'.now;
      forall i | 0 <= i < m'
        ensures Peek(w.miso, i) != TOKEN_DATA
      {
        if i > 0 {
          PeekDrop(w.miso, 1, i - 1);
        }
      }
    }
  }

  /** The data-token wait of `_readinto` (lines 192-198): like `_wait_ready`, but for 0xFE and
      with a strict deadline, so it reads up to `timeout + 1` bytes. */
  lemma TokenLoopResult(w: Wire, start: nat, timeout: nat)
    requires start <= w.now <= start + timeout
    ensures var f := TokenLoop(w, start, timeout); var m := f.w.now - w.now;
      var budget := timeout + 1 - (w.now - start);
      1 <= m <= budget && f.w.miso == Drop(w.miso, m)
      && (forall i :: 0 <= i < m - 1 ==> Peek(w.miso, i) != TOKEN_DATA)
      && (f.ok <==> Peek(w.miso, m - 1) == TOKEN_DATA)
      && (!f.ok ==> m == budget)
  {
    TokenLoopCount(w, start, timeout);
    TokenLoopSkips(w, start, timeout);
  }
}
