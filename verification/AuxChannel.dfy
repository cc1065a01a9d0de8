/** The DisplayPort AUX channel (dpout.c): one transaction with its two retry budgets, and reads of any
    length put together from fragments of up to sixteen bytes. */
module AuxChannel {
  import opened Bits

  const MAX_BYTES := 16
  const TIMEOUT_TRIES := 2
  const DEFER_TRIES := 7

  type Data = d: seq<Byte> | |d| == MAX_BYTES witness seq(MAX_BYTES, i => 0)

  datatype Code = Acked | Deferred | Refused

  /** What one transaction ends with: no end at all, or a status. An error bit outranks the reply. */
  datatype Status = Hung | Status(error: bool, reply: Code, count: Byte, data: Data)

  /** Any sink: whether it is plugged when the k-th transaction is due, and what that one ends with for
      an address and a size. */
  datatype Sink = Sink(plugged: nat -> bool, answer: (nat, nat, nat) -> Status)

  datatype Transfer = Transfer(code: nat, data: seq<Byte>, at: nat)

  // ------------------------------------------------------------ one transfer

  predicate IsError(s: Status) {
    s.Status? && s.error
  }

  predicate IsDefer(s: Status) {
    s.Status? && !s.error && s.reply == Deferred
  }

  predicate IsAck(s: Status) {
    s.Status? && !s.error && s.reply == Acked
  }

  /** A read while tries are left in both budgets. */
  function Attempt(sink: Sink, at: nat, addr: nat, n: nat, timeouts: nat, defers: nat): (t: Transfer)
    requires n <= MAX_BYTES
    ensures |t.data| <= n
    decreases timeouts + defers
  {
    if timeouts == 0 || defers == 0 then Transfer(if timeouts > 0 then 5 else 6, [], at)
    else
      var s := sink.answer(at, addr, n);
      if s == Hung then Transfer(3, [], at + 1)
      else if s.error then Attempt(sink, at + 1, addr, n, timeouts - 1, defers)
      else if s.reply == Deferred then Attempt(sink, at + 1, addr, n, timeouts, defers - 1)
      else if s.reply != Acked then Transfer(4, [], at + 1)
      else Transfer(0, s.data[..Min(s.count, n)], at + 1)
  }

  function ReadTransfer(sink: Sink, at: nat, addr: nat, n: nat): (t: Transfer)
    ensures |t.data| <= n
  {
    if n == 0 || n > MAX_BYTES then Transfer(1, [], at)
    else if !sink.plugged(at) then Transfer(2, [], at)
    else Attempt(sink, at, addr, n, TIMEOUT_TRIES, DEFER_TRIES)
  }

  /** The errors, and the defers, among the k transactions from `at` on. */
  function Errors(sink: Sink, at: nat, addr: nat, n: nat, k: nat): nat
    decreases k
  {
    if k == 0 then 0 else (if IsError(sink.answer(at, addr, n)) then 1 else 0) + Errors(sink, at + 1, addr, n, k - 1)
  }

  function Defers(sink: Sink, at: nat, addr: nat, n: nat, k: nat): nat
    decreases k
  {
    if k == 0 then 0 else (if IsDefer(sink.answer(at, addr, n)) then 1 else 0) + Defers(sink, at + 1, addr, n, k - 1)
  }

  /** What a transfer of `used` transactions makes of the answers: it went on only over errors and
      defers, each within its budget, and its code says which answer or which budget ended it. */
  ghost predicate Explains(sink: Sink, at: nat, addr: nat, n: nat, timeouts: nat, defers: nat, t: Transfer) {
    t.at > at
    && var used := t.at - at;
    var e, d := Errors(sink, at, addr, n, used), Defers(sink, at, addr, n, used);
    var last := sink.answer(t.at - 1, addr, n);
    && e <= timeouts && d <= defers && used - 1 <= e + d <= used
    && (t.code == 6 <==> e == timeouts)
    && (t.code == 5 <==> d == defers)
    && (t.code == 3 <==> last == Hung)
    && (t.code == 4 <==> last.Status? && !last.error && last.reply == Refused)
    && (t.code == 0 <==> IsAck(last))
    && t.code in {0, 3, 4, 5, 6}
    && t.data == if t.code == 0 && n <= MAX_BYTES then last.data[..Min(last.count, n)] else []
  }

  lemma {:induction false} AttemptExplained(sink: Sink, at: nat, addr: nat, n: nat, timeouts: nat, defers: nat)
    requires timeouts > 0 && defers > 0 && n <= MAX_BYTES
    ensures Explains(sink, at, addr, n, timeouts, defers, Attempt(sink, at, addr, n, timeouts, defers))
    decreases timeouts + defers
  {
    var s := sink.answer(at, addr, n);
    var t := Attempt(sink, at, addr, n, timeouts, defers);
    assert Errors(sink, at + 1, addr, n, 0) == 0 && Defers(sink, at + 1, addr, n, 0) == 0;
    if IsError(s) && timeouts > 1 {
      AttemptExplained(sink, at + 1, addr, n, timeouts - 1, defers);
    } else if IsDefer(s) && defers > 1 {
      AttemptExplained(sink, at + 1, addr, n, timeouts, defers - 1);
    } else {
      assert t.at == at + 1;
    }
  }

  /** A size out of range and an unplugged sink are refused without a transaction, with 1 and 2. A transfer to a
      plugged sink takes at most eight transactions. It succeeds exactly when the one that ended it was
      acknowledged, which comes after at most one error and six defers; it fails with 6 exactly on the second
      error and with 5 exactly on the seventh defer. */
  lemma TransferExplained(sink: Sink, at: nat, addr: nat, n: nat)
    ensures var t := ReadTransfer(sink, at, addr, n);
            if n == 0 || n > 16 then t == Transfer(1, [], at)
            else if !sink.plugged(at) then t == Transfer(2, [], at)
            else Explains(sink, at, addr, n, 2, 7, t) && t.at - at <= 8
  {
    if 0 < n <= 16 {
      AttemptExplained(sink, at, addr, n, TIMEOUT_TRIES, DEFER_TRIES);
    }
    hide Attempt, Errors, Defers;
  }

  /** A sink that acknowledges after at most one error and six defers is always heard out. */
  lemma {:induction false} PatienceSuffices(sink: Sink, at: nat, addr: nat, n: nat, timeouts: nat, defers: nat, k: nat)
    requires n <= MAX_BYTES
    requires IsAck(sink.answer(at + k, addr, n))
    requires Errors(sink, at, addr, n, k) + Defers(sink, at, addr, n, k) == k
    requires Errors(sink, at, addr, n, k) < timeouts && Defers(sink, at, addr, n, k) < defers
    ensures var t := Attempt(sink, at, addr, n, timeouts, defers);
            t.code == 0 && t.at == at + k + 1
    decreases k
  {
    if k > 0 {
      var s := sink.answer(at, addr, n);
      CountsBounded(sink, at + 1, addr, n, k - 1);
      assert IsError(s) || IsDefer(s);
      PatienceSuffices(sink, at + 1, addr, n, if IsError(s) then timeouts - 1 else timeouts,
                       if IsDefer(s) then defers - 1 else defers, k - 1);
    }
  }

  lemma {:induction false} CountsBounded(sink: Sink, at: nat, addr: nat, n: nat, k: nat)
    ensures Errors(sink, at, addr, n, k) + Defers(sink, at, addr, n, k) <= k
    decreases k
  {
    if k > 0 {
      CountsBounded(sink, at + 1, addr, n, k - 1);
    }
  }

  // --------------------------------------------------------- a whole register

  datatype Reading = Reading(code: nat, data: seq<Byte>, at: nat)

  /** `dpout_dpcd_read`: fragments until every byte is there, an error, or an empty acknowledgement. */
  function ReadDpcd(sink: Sink, at: nat, addr: nat, n: nat): (r: Reading)
    ensures |r.data| <= n
    decreases n
  {
    if n == 0 then Reading(0, [], at)
    else
      var t := ReadTransfer(sink, at, addr, Min(n, MAX_BYTES));
      if t.code != 0 then Reading(t.code, [], t.at)
      else if |t.data| == 0 then Reading(6, [], t.at)
      else
        var rest := ReadDpcd(sink, t.at, addr + |t.data|, n - |t.data|);
        Reading(rest.code, t.data + rest.data, rest.at)
  }

  /** A sink that has registers and acknowledges with what they hold, as many bytes as it likes. */
  ghost predicate Holds(sink: Sink, regs: nat -> Byte) {
    forall k, addr, n :: IsAck(sink.answer(k, addr, n)) ==> Shows(sink.answer(k, addr, n).data, regs, addr)
  }

  ghost predicate Shows(data: seq<Byte>, regs: nat -> Byte, addr: nat) {
    forall i :: 0 <= i < |data| ==> data[i] == regs(addr + i)
  }

  /** However it is cut into fragments, what is read is what the registers hold, in order and without
      gap or overlap; the code is zero exactly when all of it came; and a read of n bytes ends within
      eight transactions a byte. */
  lemma {:induction false} ReadReassembles(sink: Sink, at: nat, addr: nat, n: nat, regs: nat -> Byte)
    requires Holds(sink, regs)
    ensures var r := ReadDpcd(sink, at, addr, n);
            && Shows(r.data, regs, addr)
            && (r.code == 0 <==> |r.data| == n)
            && at <= r.at <= at + 8 * n
            && r.code in {0, 2, 3, 4, 5, 6}
    decreases n
  {
    hide ReadTransfer, Holds;
    if n > 0 {
      var cur := Min(n, MAX_BYTES);
      var t := ReadTransfer(sink, at, addr, cur);
      FragmentShows(sink, at, addr, cur, regs);
      if t.code == 0 && |t.data| > 0 {
        ReadReassembles(sink, t.at, addr + |t.data|, n - |t.data|, regs);
        ShowsAppend(t.data, ReadDpcd(sink, t.at, addr + |t.data|, n - |t.data|).data, regs, addr);
      }
    }
  }

  lemma FragmentShows(sink: Sink, at: nat, addr: nat, n: nat, regs: nat -> Byte)
    requires Holds(sink, regs) && 0 < n <= MAX_BYTES
    ensures var t := ReadTransfer(sink, at, addr, n);
            && Shows(t.data, regs, addr) && at <= t.at <= at + 8
            && t.code in {0, 2, 3, 4, 5, 6} && (t.code != 0 ==> t.data == [])
  {
    hide Attempt, Errors, Defers;
    if sink.plugged(at) {
      TransferExplained(sink, at, addr, n);
    }
  }

  lemma ShowsAppend(a: seq<Byte>, b: seq<Byte>, regs: nat -> Byte, addr: nat)
    requires Shows(a, regs, addr) && Shows(b, regs, addr + |a|)
    ensures Shows(a + b, regs, addr)
  {
    forall i | 0 <= i < |a + b|
      ensures (a + b)[i] == regs(addr + i)
    {
      if i >= |a| {
        assert b[i - |a|] == regs(addr + |a| + (i - |a|));
      }
    }
  }

  /** One turn of the retry loop. */
  lemma AttemptStep(sink: Sink, at: nat, addr: nat, n: nat, timeouts: nat, defers: nat)
    requires n <= MAX_BYTES && timeouts > 0 && defers > 0
    ensures var s, t := sink.answer(at, addr, n), Attempt(sink, at, addr, n, timeouts, defers);
            if s == Hung then t == Transfer(3, [], at + 1)
            else if s.error then t == Attempt(sink, at + 1, addr, n, timeouts - 1, defers)
            else if s.reply == Deferred then t == Attempt(sink, at + 1, addr, n, timeouts, defers - 1)
            else t == if s.reply != Acked then Transfer(4, [], at + 1)
                      else Transfer(0, s.data[..Min(s.count, n)], at + 1)
  {
  }

  lemma AttemptEnds(sink: Sink, at: nat, addr: nat, n: nat, timeouts: nat, defers: nat)
    requires n <= MAX_BYTES && (timeouts == 0 || defers == 0)
    ensures Attempt(sink, at, addr, n, timeouts, defers) == Transfer(if timeouts > 0 then 5 else 6, [], at)
  {
  }

  // ------------------------------------------------------------- in place

  /** What is read in all, once the fragments before have come. */
  function Joined(data: seq<Byte>, rest: Reading): Reading {
    Reading(rest.code, data + rest.data, rest.at)
  }

  lemma JoinedNothing(rest: Reading)
    ensures Joined([], rest) == rest
  {
    assert [] + rest.data == rest.data;
  }

  lemma NothingLeft(sink: Sink, at: nat, addr: nat, data: seq<Byte>)
    ensures Joined(data, ReadDpcd(sink, at, addr, 0)) == Reading(0, data, at)
  {
    assert data + [] == data;
  }

  /** A transfer that failed delivered nothing. */
  lemma FailureIsEmpty(sink: Sink, at: nat, addr: nat, n: nat)
    ensures var t := ReadTransfer(sink, at, addr, n);
            t.code != 0 ==> t.data == []
  {
    hide Attempt, Errors, Defers;
    if 0 < n <= MAX_BYTES && sink.plugged(at) {
      TransferExplained(sink, at, addr, n);
    }
  }

  lemma JoinedStep(sink: Sink, at: nat, addr: nat, n: nat, data: seq<Byte>)
    requires n > 0
    ensures var t := ReadTransfer(sink, at, addr, Min(n, MAX_BYTES));
            Joined(data, ReadDpcd(sink, at, addr, n)) ==
              if t.code != 0 then Reading(t.code, data, t.at)
              else if t.data == [] then Reading(6, data, t.at)
              else Joined(data + t.data, ReadDpcd(sink, t.at, addr + |t.data|, n - |t.data|))
  {
    hide ReadTransfer;
    var t := ReadTransfer(sink, at, addr, Min(n, MAX_BYTES));
    assert data + [] == data;
    if t.code == 0 && t.data != [] {
      var rest := ReadDpcd(sink, t.at, addr + |t.data|, n - |t.data|).data;
      assert data + (t.data + rest) == (data + t.data) + rest;
    }
  }

  /** The buffer holds the data at its start and is as it was behind it. */
  ghost predicate Filled(now: seq<Byte>, data: seq<Byte>, first: seq<Byte>) {
    |data| <= |first| && now == data + first[|data|..]
  }

  lemma NothingFilled(first: seq<Byte>)
    ensures Filled(first, [], first)
  {
    assert first == [] + first[0..];
  }

  lemma Spliced(front: seq<Byte>, piece: seq<Byte>, first: seq<Byte>, was: seq<Byte>, now: seq<Byte>)
    requires |front| + |piece| <= |first| && was == front + first[|front|..]
    requires now == was[..|front|] + piece + was[|front| + |piece|..]
    ensures now == front + piece + first[|front| + |piece|..]
  {
  }

  /** The channel: a count of the transactions made, and buffers filled where they lie. */
  class Aux {
    const sink: Sink
    var at: nat

    constructor (sink: Sink)
      ensures this.sink == sink && at == 0
    {
      this.sink := sink;
      at := 0;
    }

    static method Store(buf: array<Byte>, from: nat, data: seq<Byte>)
      requires from + |data| <= buf.Length
      modifies buf
      ensures buf[..] == old(buf[..from]) + data + old(buf[from + |data|..])
    {
      for i := 0 to |data|
        invariant buf[..] == old(buf[..from]) + data[..i] + old(buf[from + i..])
      {
        buf[from + i] := data[i];
      }
      assert data[..|data|] == data;
    }

    /** The transactions of one transfer, and the bytes the last one brought. */
    method Exchange(addr: nat, n: nat) returns (code: nat, data: seq<Byte>)
      requires n <= MAX_BYTES
      modifies `at
      ensures var t := Attempt(sink, old(at), addr, n, TIMEOUT_TRIES, DEFER_TRIES);
              code == t.code && data == t.data && at == t.at
    {
      hide Attempt;
      var timeouts: nat, defers: nat := TIMEOUT_TRIES, DEFER_TRIES;
      while timeouts > 0 && defers > 0
        invariant Attempt(sink, at, addr, n, timeouts, defers)
               == Attempt(sink, old(at), addr, n, TIMEOUT_TRIES, DEFER_TRIES)
        decreases timeouts + defers
      {
        AttemptStep(sink, at, addr, n, timeouts, defers);
        var s := sink.answer(at, addr, n);
        at := at + 1;
        if s == Hung {
          return 3, [];
        }
        if s.error {
          timeouts := timeouts - 1;
          continue;
        }
        if s.reply == Deferred {
          defers := defers - 1;
          continue;
        }
        if s.reply != Acked {
          return 4, [];
        }
        var got := s.count;
        if got > n {
          got := n;
        }
        return 0, s.data[..got];
      }
      AttemptEnds(sink, at, addr, n, timeouts, defers);
      code, data := if timeouts > 0 then 5 else 6, [];
    }

    /** `_aux_xfer`, a read of n bytes into the buffer from `from` on. */
    method Transfer(addr: nat, buf: array<Byte>, from: nat, n: nat) returns (code: nat, got: nat)
      requires from + n <= buf.Length
      modifies this, buf
      ensures var t := ReadTransfer(sink, old(at), addr, n);
              && code == t.code && at == t.at && got == |t.data|
              && buf[..] == old(buf[..from]) + t.data + old(buf[from + |t.data|..])
    {
      hide Attempt;
      if n == 0 || n > MAX_BYTES {
        return 1, 0;
      }
      if !sink.plugged(at) {
        return 2, 0;
      }
      var data;
      code, data := Exchange(addr, n);
      Store(buf, from, data);
      got := |data|;
    }

    /** One fragment, appended to those that came before. */
    method Fragment(addr: nat, buf: array<Byte>, done: nat, cur: nat, ghost data: seq<Byte>, ghost first: seq<Byte>)
        returns (code: nat, got: nat)
      requires |data| == done && done + cur <= |first| == buf.Length && Filled(buf[..], data, first)
      modifies this, buf
      ensures var t := ReadTransfer(sink, old(at), addr, cur);
              && code == t.code && at == t.at && got == |t.data|
              && Filled(buf[..], data + t.data, first)
    {
      hide ReadTransfer;
      ghost var was := buf[..];
      code, got := Transfer(addr, buf, done, cur);
      Spliced(data, ReadTransfer(sink, old(at), addr, cur).data, first, was, buf[..]);
    }

    /** `dpout_dpcd_read` into the buffer from its start. */
    method Read(addr: nat, buf: array<Byte>, n: nat) returns (code: nat)
      requires n <= buf.Length
      modifies this, buf
      ensures var r := ReadDpcd(sink, old(at), addr, n);
              && code == r.code && at == r.at
              && Filled(buf[..], r.data, old(buf[..]))
    {
      hide ReadTransfer, ReadDpcd, Joined, Filled;
      ghost var first := buf[..];
      ghost var whole := ReadDpcd(sink, at, addr, n);
      ghost var data: seq<Byte> := [];
      var done := 0;
      JoinedNothing(whole);
      NothingFilled(first);
      while done < n
        invariant done == |data| <= n && Filled(buf[..], data, first)
        invariant whole == Joined(data, ReadDpcd(sink, at, addr + done, n - done))
        decreases n - done
      {
        ghost var t := ReadTransfer(sink, at, addr + done, Min(n - done, MAX_BYTES));
        JoinedStep(sink, at, addr + done, n - done, data);
        var cur := if n - done > MAX_BYTES then MAX_BYTES else n - done;
        FailureIsEmpty(sink, at, addr + done, cur);
        var r, got := Fragment(addr + done, buf, done, cur, data, first);
        if r != 0 {
          assert data + [] == data;
          return r;
        }
        if got == 0 {
          assert data + [] == data;
          return 6;
        }
        data := data + t.data;
        done := done + got;
      }
      NothingLeft(sink, at, addr + done, data);
      return 0;
    }
  }
}
