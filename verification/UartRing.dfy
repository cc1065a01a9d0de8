/** The push-back FIFO in front of the debug UART (core.c) and the batch of navigation keys read
    through it (main.c). */
module UartRing {
  import opened Bits
  import opened Division
  import opened Pager

  const DEPTH := 16

  const KEY_N: Byte := 0x6E
  const KEY_SPACE: Byte := 0x20
  const KEY_P: Byte := 0x70
  const KEY_B: Byte := 0x62
  const KEY_REBOOT: Byte := 0x52  // 'R'

  predicate IsForward(c: Byte) {
    c == KEY_N || c == KEY_SPACE
  }

  predicate IsBack(c: Byte) {
    c == KEY_P || c == KEY_B
  }

  predicate IsNav(c: Byte) {
    IsForward(c) || IsBack(c)
  }

  /** The keys by name: n and the space bar go to the next page, p and b to the one before, R restarts; and the
      queue holds sixteen bytes. */
  lemma Keys(c: Byte)
    ensures IsForward(c) <==> c == 'n' as int || c == ' ' as int
    ensures IsBack(c) <==> c == 'p' as int || c == 'b' as int
    ensures KEY_REBOOT == 'R' as int && DEPTH == 16
    ensures Dir(Forward) == 1 && Dir(Back) == -1
  {
  }

  /** How many navigation keys lead the stream. */
  function NavRun(s: seq<Byte>): (n: nat)
    ensures n <= |s|
    ensures forall i :: 0 <= i < n ==> IsNav(s[i])
    ensures n < |s| ==> !IsNav(s[n])
  {
    if s == [] || !IsNav(s[0]) then 0 else 1 + NavRun(s[1..])
  }

  function Navs(s: seq<Byte>): (keys: seq<Nav>)
    requires forall c :: c in s ==> IsNav(c)
    ensures |keys| == |s|
  {
    seq(|s|, i requires 0 <= i < |s| => if IsForward(s[i]) then Forward else Back)
  }

  lemma {:induction false} NetAppend(s: seq<Nav>, k: Nav)
    ensures Net(s + [k]) == Net(s) + Dir(k)
    decreases |s|
  {
    if s == [] {
      assert s + [k] == [k];
    } else {
      assert (s + [k])[0] == s[0] && (s + [k])[1..] == s[1..] + [k];
      NetAppend(s[1..], k);
    }
  }

  /** The slot a free-running counter names, i places on; the word size is a multiple of the depth, so
      a counter that wraps keeps naming the next slot. */
  function Slot(counter: nat, i: nat): (r: nat)
    ensures r < DEPTH
  {
    (counter + i) % WORD % DEPTH
  }

  lemma SlotIsModular(counter: nat, i: nat)
    ensures Slot(counter, i) == (counter + i) % DEPTH
  {
    var x := counter + i;
    var q := x / WORD;
    assert x == (q * 0x1000_0000) * DEPTH + x % WORD;
    AddMultiple(x % WORD, q * 0x1000_0000, DEPTH);
  }

  /** Slots less than a depth apart are different. */
  lemma SlotsDistinct(counter: nat, i: nat, j: nat)
    requires i < j < i + DEPTH
    ensures Slot(counter, i) != Slot(counter, j)
  {
    SlotIsModular(counter, i);
    SlotIsModular(counter, j);
  }

  lemma SlotAfter(counter: nat, i: nat)
    ensures Slot((counter + 1) % WORD, i) == Slot(counter, i + 1)
  {
    SlotIsModular((counter + 1) % WORD, i);
    SlotIsModular(counter, i + 1);
    var q := (counter + 1) / WORD;
    assert counter + 1 == q * WORD + (counter + 1) % WORD;
    assert counter + i + 1 == (q * 0x1000_0000) * DEPTH + ((counter + 1) % WORD + i);
    AddMultiple((counter + 1) % WORD + i, q * 0x1000_0000, DEPTH);
  }

  function Front(s: seq<Byte>, n: nat): seq<Byte> {
    if |s| <= n then s else s[..n]
  }

  lemma FrontAppends(s: seq<Byte>, c: Byte, n: nat)
    ensures Front(Front(s, n) + [c], n) == Front(s + [c], n)
  {
    if |s| >= n {
      assert (Front(s, n) + [c])[..n] == s[..n] && (s + [c])[..n] == s[..n];
    }
  }

  lemma FrontWhole(s: seq<Byte>, n: nat)
    requires |s| <= n
    ensures Front(s, n) == s
  {
  }

  /** What the stream is after a batch over stream s, of which the first q bytes were queued: the
      byte that ended the batch was taken off and handed back. */
  function HandedBack(s: seq<Byte>, q: nat): seq<Byte>
    requires q <= |s|
  {
    var n := NavRun(s);
    if n == |s| then [] else PutBehind(s, q, n)
  }

  /** The byte at n behind those queued after it. */
  function PutBehind(s: seq<Byte>, q: nat, n: nat): seq<Byte>
    requires n < |s| && q <= |s|
  {
    if q <= n + 1 then s[n..] else s[n + 1..q] + [s[n]] + s[q..]
  }

  /** What is left after the first n. */
  function After(s: seq<Byte>, n: int): seq<Byte> {
    if n <= 0 then s else if n <= |s| then s[n..] else []
  }

  lemma AfterBoth(q: seq<Byte>, w: seq<Byte>, n: nat)
    requires n <= |q + w|
    ensures After(q, n) + After(w, n - |q|) == (q + w)[n..]
    ensures n < |q + w| ==>
              if n < |q| then After(q, n) != [] && After(q, n)[0] == (q + w)[n] && After(q, n)[1..] == After(q, n + 1)
                              && After(w, n - |q|) == After(w, n + 1 - |q|)
              else After(q, n) == [] == After(q, n + 1) && After(w, n - |q|) != [] && After(w, n - |q|)[0] == (q + w)[n]
                   && After(w, n - |q|)[1..] == After(w, n + 1 - |q|)
  {
  }

  lemma Beginning(q: seq<Byte>, w: seq<Byte>)
    ensures After(q, 0) == q && After(w, 0 - |q|) == w && Net(Navs((q + w)[..0])) == 0
  {
  }

  lemma FitsBehind(q: seq<Byte>, n: nat, c: Byte)
    requires |q| <= DEPTH
    ensures Front(After(q, n + 1) + [c], DEPTH) == After(q, n + 1) + [c]
  {
  }

  lemma NavRunBounds(s: seq<Byte>)
    ensures NavRun(s) <= |s|
    ensures forall i :: 0 <= i < NavRun(s) ==> IsNav(s[i])
    ensures NavRun(s) < |s| ==> !IsNav(s[NavRun(s)])
  {
  }

  lemma NavsAppend(s: seq<Byte>, n: nat)
    requires n < |s| && (forall c :: c in s[..n] ==> IsNav(c)) && IsNav(s[n])
    ensures forall c :: c in s[..n + 1] ==> IsNav(c)
    ensures Net(Navs(s[..n + 1])) == Net(Navs(s[..n])) + (if IsForward(s[n]) then 1 else -1)
  {
    var k := if IsForward(s[n]) then Forward else Back;
    assert s[..n + 1] == s[..n] + [s[n]];
    assert Navs(s[..n + 1]) == Navs(s[..n]) + [k];
    NetAppend(Navs(s[..n]), k);
  }

  /** The batch's outcome, in terms of what was queued and what was on the wire. */
  lemma HandedBackIs(q: seq<Byte>, w: seq<Byte>)
    ensures var s, n := q + w, NavRun(q + w);
            HandedBack(s, |q|) ==
            if n == |s| then [] else After(q, n + 1) + [s[n]] + After(w, n + 1 - |q|)
  {
    hide NavRun;
    var s, n := q + w, NavRun(q + w);
    NavRunBounds(s);
    if n < |s| {
      if |q| <= n + 1 {
        assert s[n..] == [s[n]] + After(w, n + 1 - |q|);
      } else {
        assert s[n + 1..|q|] == After(q, n + 1) && s[|q|..] == w;
      }
    }
  }

  class Uart {
    const pb: array<Byte>
    var head: nat
    var tail: nat
    /** Bytes the UART has received and nobody has taken. */
    var wire: seq<Byte>

    ghost predicate Valid()
      reads this
    {
      pb.Length == DEPTH && head < WORD && tail < WORD && Count() <= DEPTH
    }

    /** The counters run freely and wrap; their difference does not mind. */
    ghost function Count(): nat
      reads this
    {
      (head - tail) % WORD
    }

    ghost function Queue(): (q: seq<Byte>)
      requires Valid()
      reads this, pb
      ensures |q| == Count()
    {
      seq(Count(), i requires 0 <= i < Count() reads this, pb requires Valid() => pb[Slot(tail, i)])
    }

    /** Every byte still to be read, in the order `uart_getc` will return them. */
    ghost function Stream(): seq<Byte>
      requires Valid()
      reads this, pb
    {
      Queue() + wire
    }

    constructor (received: seq<Byte>)
      ensures Valid() && fresh(pb)
      ensures Queue() == [] && wire == received
    {
      pb := new Byte[DEPTH](_ => 0);
      head, tail, wire := 0, 0, received;
    }

    /** `uart_getc`: minus one when there is nothing. */
    method Getc() returns (c: int)
      requires Valid()
      modifies this
      ensures Valid()
      ensures old(Queue()) != [] ==> c == old(Queue())[0] && Queue() == old(Queue())[1..] && wire == old(wire)
      ensures old(Queue()) == [] ==> Queue() == []
      ensures old(Queue()) == [] && old(wire) != [] ==> c == old(wire)[0] && wire == old(wire)[1..]
      ensures old(Stream()) == [] ==> c == -1 && wire == []
    {
      hide Slot;
      if tail != head {
        CountStep(head, tail);
        ghost var t, was := tail, Queue();
        c := pb[tail % DEPTH];
        SlotOfTail(tail);
        tail := (tail + 1) % WORD;
        forall i | 0 <= i < Count()
          ensures Queue()[i] == was[i + 1]
        {
          SlotAfter(t, i);
        }
        assert Queue() == was[1..];
        return;
      }
      if wire == [] {
        return -1;
      }
      c := wire[0];
      wire := wire[1..];
    }

    /** `uart_ungetc`: the byte goes behind what is queued, or is dropped. */
    method Ungetc(c: Byte)
      requires Valid()
      modifies this`head, pb
      ensures Valid()
      ensures Queue() == Front(old(Queue()) + [c], DEPTH)
    {
      hide Slot;
      ghost var was, n := Queue(), Count();
      if (head - tail) % WORD < DEPTH {
        SlotOfHead(head, tail);
        forall i | 0 <= i < n
          ensures Slot(tail, i) != Slot(tail, n)
        {
          SlotsDistinct(tail, i, n);
        }
        pb[head % DEPTH] := c;
        CountUp(head, tail);
        head := (head + 1) % WORD;
        assert Queue() == was + [c];
      }
    }

    /** `uart_poll_reboot`: everything waiting on the wire is drained, and an 'R' anywhere in it is
        reached whatever is queued in front of it. */
    method PollReboot() returns (reboot: bool)
      requires Valid()
      modifies this, pb
      ensures Valid()
      ensures reboot <==> KEY_REBOOT in old(wire)
      ensures !reboot ==> wire == [] && Queue() == Front(old(Stream()), DEPTH)
      ensures reboot ==> exists n: nat :: n < |old(wire)| && old(wire)[n] == KEY_REBOOT
                           && KEY_REBOOT !in old(wire)[..n] && wire == old(wire)[n + 1..]
    {
      hide Front;
      ghost var n := 0;
      FrontWhole(Queue(), DEPTH);
      assert old(wire)[..0] == [];
      assert Queue() + [] == Queue();
      while wire != []
        invariant Valid()
        invariant n <= |old(wire)| && wire == old(wire)[n..] && KEY_REBOOT !in old(wire)[..n]
        invariant Queue() == Front(old(Queue()) + old(wire)[..n], DEPTH)
        decreases |wire|
      {
        ghost var seen, was := old(Queue()) + old(wire)[..n], Queue();
        var c := wire[0];
        wire := wire[1..];
        assert Queue() == was == Front(seen, DEPTH);
        assert old(wire)[..n + 1] == old(wire)[..n] + [c];
        if c == KEY_REBOOT {
          return true;
        }
        FrontAppends(seen, c, DEPTH);
        Ungetc(c);
        assert old(Queue()) + old(wire)[..n + 1] == seen + [c];
        n := n + 1;
      }
      assert old(wire)[..n] == old(wire);
      return false;
    }

    /** The inner loop of the pager's batch. */
    method ReadBatch(first: int) returns (delta: int)
      requires Valid()
      modifies this, pb
      ensures Valid()
      ensures delta == first + Net(Navs(old(Stream())[..NavRun(old(Stream()))]))
      ensures Stream() == HandedBack(old(Stream()), |old(Queue())|)
    {
      hide Queue, NavRun, After, Front, HandedBack, Navs, Net;
      ghost var q, w, n := Queue(), wire, 0;
      ghost var s := q + w;
      NavRunBounds(s);
      Beginning(q, w);
      delta := first;
      while true
        invariant Valid() && n <= NavRun(s)
        invariant Queue() == After(q, n) && wire == After(w, n - |q|)
        invariant delta == first + Net(Navs(s[..n]))
        decreases NavRun(s) - n
      {
        AfterBoth(q, w, n);
        var next := Getc();
        if next < 0 {
          break;
        }
        assert next == s[n] && Queue() == After(q, n + 1) && wire == After(w, n + 1 - |q|);
        if IsForward(next) || IsBack(next) {
          NavsAppend(s, n);
          delta := delta + (if IsForward(next) then 1 else -1);
          n := n + 1;
        } else {
          FitsBehind(q, n, next);
          Ungetc(next);
          break;
        }
      }
      HandedBackIs(q, w);
    }

    /** One batch of the pager: the key that started it, then every navigation key behind it, then
        the page. */
    method NavBatch(enabled: seq<bool>, page0: nat, first: Nav) returns (page: nat)
      requires Valid() && Pages(enabled) && page0 < |enabled| && enabled[page0]
      modifies this, pb
      ensures Valid()
      ensures page == EachInTurn(enabled, page0, [first] + Navs(old(Stream())[..NavRun(old(Stream()))]))
      ensures page < |enabled| && enabled[page]
      ensures Stream() == HandedBack(old(Stream()), |old(Queue())|)
    {
      ghost var keys := [first] + Navs(Stream()[..NavRun(Stream())]);
      var delta := ReadBatch(Dir(first));
      assert keys[0] == first && keys[1..] == Navs(old(Stream())[..NavRun(old(Stream()))]);
      page := ApplyDelta(enabled, page0, delta);
      BatchIsEachInTurn(enabled, page0, keys);
    }

    /** The same on the object: two keys come in, a poll for 'R' queues them, and a batch that stops at the
        first leaves them the other way round. */
    static method StrayKeysSwap(x: Byte, y: Byte) returns (u: Uart)
      requires !IsNav(x) && x != y && x != KEY_REBOOT && y != KEY_REBOOT
      ensures fresh(u) && u.Valid() && u.Stream() == [y, x]
    {
      u := new Uart([x, y]);
      FrontWhole([x, y], DEPTH);
      assert [] + [x, y] == [x, y];
      var reboot := u.PollReboot();
      assert u.Queue() + [] == u.Queue();
      HandingBackSwaps(x, y);
      var delta := u.ReadBatch(0);
    }
  }

  lemma CountStep(head: nat, tail: nat)
    requires head < WORD && tail < WORD && head != tail
    ensures (head - tail) % WORD > 0
    ensures (head - (tail + 1) % WORD) % WORD == (head - tail) % WORD - 1
  {
  }

  lemma CountUp(head: nat, tail: nat)
    requires head < WORD && tail < WORD && (head - tail) % WORD < DEPTH
    ensures ((head + 1) % WORD - tail) % WORD == (head - tail) % WORD + 1
  {
  }

  lemma SlotOfTail(tail: nat)
    requires tail < WORD
    ensures Slot(tail, 0) == tail % DEPTH
  {
  }

  lemma SlotOfHead(head: nat, tail: nat)
    requires head < WORD && tail < WORD
    ensures Slot(tail, (head - tail) % WORD) == head % DEPTH
  {
  }

  /** No byte is ever lost or made up by a batch: what was not a key is all still there. */
  lemma BatchKeepsEveryByte(s: seq<Byte>, q: nat)
    requires q <= |s|
    ensures multiset(HandedBack(s, q)) == multiset(s[NavRun(s)..])
  {
    hide NavRun;
    var n := NavRun(s);
    NavRunBounds(s);
    if n < |s| && q > n + 1 {
      SplitAt(s, n, q);
      MovedBehind(s[n], s[n + 1..q], s[q..]);
    }
  }

  lemma SplitAt(s: seq<Byte>, n: nat, q: nat)
    requires n < q <= |s|
    ensures s[n..] == [s[n]] + s[n + 1..q] + s[q..]
  {
  }

  lemma MovedBehind(c: Byte, a: seq<Byte>, b: seq<Byte>)
    ensures multiset(a + [c] + b) == multiset([c] + a + b)
  {
    assert multiset(a + [c]) == multiset([c] + a);
  }

  /** Handing the byte back restores the stream exactly when nothing was queued behind it, or the
      bytes queued behind it are all the same as it. */
  lemma HandingBackRestores(s: seq<Byte>, q: nat)
    requires q <= |s| && NavRun(s) < |s|
    ensures HandedBack(s, q) == s[NavRun(s)..]
       <==> q <= NavRun(s) + 1 || AllSame(s[NavRun(s) + 1..q], s[NavRun(s)])
  {
    hide NavRun, HandedBack, AllSame;
    var n := NavRun(s);
    HandedBackForm(s, q);
    if q > n + 1 {
      SplitAt(s, n, q);
      MovedBehindSame(s[n], s[n + 1..q], s[q..]);
    }
  }

  /** It need not: with two different keys left queued, as a poll for 'R' leaves them, the one handed back
      comes out behind the other. */
  lemma HandingBackSwaps(x: Byte, y: Byte)
    requires !IsNav(x) && x != y
    ensures HandedBack([x, y], 2) == [y, x] != [x, y]
  {
    assert NavRun([x, y]) == 0;
    assert [x, y][1..2] == [y] && [x, y][2..] == [];
    assert [x, y] != [y, x] by {
      assert [x, y][0] == x && [y, x][0] == y;
    }
  }

  lemma HandedBackForm(s: seq<Byte>, q: nat)
    requires q <= |s| && NavRun(s) < |s|
    ensures HandedBack(s, q) == PutBehind(s, q, NavRun(s))
  {
    hide NavRun, PutBehind;
  }

  ghost predicate AllSame(a: seq<Byte>, c: Byte) {
    forall j :: 0 <= j < |a| ==> a[j] == c
  }

  lemma MovedBehindSame(c: Byte, a: seq<Byte>, b: seq<Byte>)
    ensures a + [c] + b == [c] + a + b <==> AllSame(a, c)
  {
    if a + [c] + b == [c] + a + b {
      Constant(c, a, b, |a|);
    }
  }

  lemma {:induction false} Constant(c: Byte, a: seq<Byte>, b: seq<Byte>, n: nat)
    requires n <= |a| && a + [c] + b == [c] + a + b
    ensures forall i :: 0 <= i < n ==> a[i] == c
    decreases n
  {
    if n > 0 {
      Constant(c, a, b, n - 1);
      assert (a + [c] + b)[n - 1] == a[n - 1];
      assert ([c] + a + b)[n - 1] == if n == 1 then c else a[n - 2];
    }
  }
}
