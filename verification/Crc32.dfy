/** The bitwise CRC-32 of `gpt_crc32` (probe_storage.c) and what it detects.

    The loop is specified byte by byte (`Feed`). The detection theorems are proved on an
    independent, bit-serial reading of the same register (`FeedBits`), in which the classic burst
    guarantee is a statement about one window of at most 32 bits.

    The word operations have names, and the structural lemmas hide their definitions: those
    proofs are about the order of the operations, not about their bits. */
module Crc32 {

  const POLY: bv32 := 0xEDB88320
  const SEED: bv32 := 0xFFFFFFFF

  // ------------------------------------------------------------ the word operations

  function Xor(a: bv32, b: bv32): bv32 {
    a ^ b
  }

  function Complement(a: bv32): bv32 {
    !a
  }

  function Low(bit: bool): bv32 {
    if bit then 1 else 0
  }

  function Double(p: bv32): bv32 {
    p << 1
  }

  /** The word whose lowest bit is `bit` and whose others are `p`, one place up. */
  function Before(bit: bool, p: bv32): bv32 {
    if bit then 1 | (p << 1) else p << 1
  }

  /** One turn of the inner loop. */
  function Shift(c: bv32): bv32 {
    (c >> 1) ^ (if c & 1 == 1 then POLY else 0)
  }

  function Shifts(c: bv32, n: nat): bv32
    decreases n, c
  {
    if n == 0 then c else Shifts(Shift(c), n - 1)
  }

  // ---------------------------------------------------------------- the loop

  function Feed(c: bv32, s: seq<bv8>): bv32
    decreases |s|
  {
    if s == [] then c else Feed(Shifts(Xor(c, s[0] as bv32), 8), s[1..])
  }

  function Checksum(s: seq<bv8>): bv32 {
    Complement(Feed(SEED, s))
  }

  lemma FeedHead(c: bv32, b: bv8, s: seq<bv8>, rest: seq<bv8>)
    requires s == [b] + rest
    ensures Feed(c, s) == Feed(Shifts(Xor(c, b as bv32), 8), rest)
  {
    hide Shift, Shifts, Xor;
    assert s[0] == b && s[1..] == rest;
  }

  /** The inner loop of `gpt_crc32`: one byte into the register. */
  method FeedByte(c: bv32, b: bv8) returns (crc: bv32)
    ensures crc == Shifts(Xor(c, b as bv32), 8)
  {
    hide Shift;
    crc := c ^ (b as bv32);
    for bit := 0 to 8
      invariant Shifts(crc, 8 - bit) == Shifts(Xor(c, b as bv32), 8)
    {
      crc := Shift(crc);
    }
  }

  /** `gpt_crc32`, over `len` bytes of the buffer from `off`. */
  method GptCrc32(buf: array<bv8>, off: nat, len: nat) returns (r: bv32)
    requires off + len <= buf.Length
    ensures r == Checksum(buf[off..off + len])
  {
    hide Shift, Shifts, Xor;
    var crc := SEED;
    for i := 0 to len
      invariant Feed(crc, buf[off + i..off + len]) == Feed(SEED, buf[off..off + len])
    {
      FeedHead(crc, buf[off + i], buf[off + i..off + len], buf[off + i + 1..off + len]);
      crc := FeedByte(crc, buf[off + i]);
    }
    r := !crc;
  }

  // ------------------------------------------------- the shift is a bijection

  /** The polynomial's top bit is set, so the bit shifted out can be read back. */
  function Unshift(c: bv32): bv32 {
    if c & 0x80000000 != 0 then ((c ^ POLY) << 1) | 1 else c << 1
  }

  lemma ShiftUnshift(c: bv32)
    ensures Unshift(Shift(c)) == c
  {
  }

  lemma UnshiftLow(c: bv32)
    requires c & 0x80000000 == 0
    ensures Shift(c << 1) == c
  {
  }

  lemma UnshiftHigh(c: bv32)
    requires c & 0x80000000 != 0
    ensures (((c ^ POLY) << 1) | 1) & 1 == 1
    ensures ((((c ^ POLY) << 1) | 1) >> 1) ^ POLY == c
  {
  }

  lemma ShiftIsABijection(c: bv32)
    ensures Unshift(Shift(c)) == c && Shift(Unshift(c)) == c
  {
    ShiftUnshift(c);
    if c & 0x80000000 == 0 {
      UnshiftLow(c);
    } else {
      UnshiftHigh(c);
    }
  }

  lemma {:induction false} ShiftsInjective(a: bv32, b: bv32, n: nat)
    ensures Shifts(a, n) == Shifts(b, n) <==> a == b
    decreases n
  {
    hide Shift, Unshift;
    if n > 0 {
      ShiftsInjective(Shift(a), Shift(b), n - 1);
      ShiftIsABijection(a);
      ShiftIsABijection(b);
    }
  }

  // ------------------------------------------------------- the bit-serial form

  /** One bit of the message into the register. */
  function Enter(c: bv32, bit: bool): bv32 {
    Shift(Xor(c, Low(bit)))
  }

  /** A bit string, first bit sent first. */
  function FeedBits(c: bv32, bits: seq<bool>): bv32
    decreases |bits|
  {
    if bits == [] then c else FeedBits(Enter(c, bits[0]), bits[1..])
  }

  /** Low bit first, as the loop above takes a byte. */
  function BitsOfByte(b: bv8): (bits: seq<bool>)
    ensures |bits| == 8
  {
    [b & 1 == 1, (b >> 1) & 1 == 1, (b >> 2) & 1 == 1, (b >> 3) & 1 == 1,
     (b >> 4) & 1 == 1, (b >> 5) & 1 == 1, (b >> 6) & 1 == 1, (b >> 7) & 1 == 1]
  }

  function BitsOf(s: seq<bv8>): (bits: seq<bool>)
    ensures |bits| == 8 * |s|
  {
    if s == [] then [] else BitsOfByte(s[0]) + BitsOf(s[1..])
  }

  /** Up to 32 bits as a word, first bit lowest. */
  function Pack(bits: seq<bool>): bv32 {
    if bits == [] then 0 else Before(bits[0], Pack(bits[1..]))
  }

  // ---------------------------------------------- a word's bits wait their turn

  lemma BeforeFits0(p: bv32, k: bv6)
    requires 0 < k < 32 && p >> (k - 1) == 0
    ensures (p << 1) >> k == 0
  {
  }

  lemma BeforeFits1(p: bv32, k: bv6)
    requires 0 < k < 32 && p >> (k - 1) == 0
    ensures (1 | (p << 1)) >> k == 0
  {
  }

  lemma Predecessor(k: bv6)
    requires 0 < k as int < 32
    ensures 0 < k < 32 && (k - 1) as int == k as int - 1
  {
  }

  lemma TopBitClear(p: bv32, k: bv6)
    requires k as int < 32 && p >> k == 0
    ensures p < 0x80000000
  {
  }

  /** A word of k bits stays below two to the k, so packing never drops one. */
  lemma {:induction false} PackFits(bits: seq<bool>, k: bv6)
    requires |bits| == k as int < 32
    ensures Pack(bits) >> k == 0
    ensures Pack(bits) < 0x80000000
    decreases |bits|
  {
    if bits != [] {
      Predecessor(k);
      PackFits(bits[1..], k - 1);
      if bits[0] {
        BeforeFits1(Pack(bits[1..]), k);
      } else {
        BeforeFits0(Pack(bits[1..]), k);
      }
    }
    TopBitClear(Pack(bits), k);
  }

  lemma PackTail(bits: seq<bool>)
    requires 0 < |bits| <= 32
    ensures Pack(bits) == Before(bits[0], Pack(bits[1..]))
    ensures Pack(bits[1..]) < 0x80000000
  {
    hide Before, Pack;
    PackFits(bits[1..], AsIndex(|bits[1..]|));
    PackHead(bits);
  }

  lemma PackHead(bits: seq<bool>)
    requires bits != []
    ensures Pack(bits) == Before(bits[0], Pack(bits[1..]))
  {
    hide Before;
  }

  function AsIndex(k: nat): (r: bv6)
    requires k < 32
    ensures r as int == k
  {
    k as bv6
  }

  lemma BeforeInjective(p: bv32, b: bool, q: bv32, c: bool)
    requires p < 0x80000000 && q < 0x80000000
    requires Before(b, p) == Before(c, q)
    ensures p == q && b == c
  {
    hide Before;
    BackFrom(p, b);
    BackFrom(q, c);
  }

  lemma BackFrom(p: bv32, b: bool)
    requires p < 0x80000000
    ensures Before(b, p) >> 1 == p && (Before(b, p) & 1 == 1) == b
  {
    if b {
      BackFrom1(p);
    } else {
      BackFrom0(p);
    }
  }

  lemma BackFrom0(p: bv32)
    requires p < 0x80000000
    ensures (p << 1) >> 1 == p && (p << 1) & 1 == 0
  {
  }

  lemma BackFrom1(p: bv32)
    requires p < 0x80000000
    ensures (1 | (p << 1)) >> 1 == p && (1 | (p << 1)) & 1 == 1
  {
  }

  lemma {:induction false} PackInjective(v: seq<bool>, w: seq<bool>)
    requires |v| == |w| <= 32 && Pack(v) == Pack(w)
    ensures v == w
    decreases |v|
  {
    hide Before, Pack;
    if v != [] {
      PackTail(v);
      PackTail(w);
      BeforeInjective(Pack(v[1..]), v[0], Pack(w[1..]), w[0]);
      PackInjective(v[1..], w[1..]);
      assert v == [v[0]] + v[1..] && w == [w[0]] + w[1..];
    }
  }

  /** Shifting distributes over exclusive or with anything that has not reached the low bit. */
  lemma ShiftLinear(a: bv32, p: bv32)
    requires p < 0x80000000
    ensures Shift(Xor(a, Double(p))) == Xor(Shift(a), p)
  {
    hide Shift;
    ShiftLinearWord(a, p);
  }

  lemma ShiftLinearWord(a: bv32, p: bv32)
    requires p < 0x80000000
    ensures Shift(a ^ (p << 1)) == Shift(a) ^ p
  {
  }

  lemma Split0(c: bv32, p: bv32)
    ensures c ^ (p << 1) == (c ^ 0) ^ (p << 1)
  {
  }

  lemma Split1(c: bv32, p: bv32)
    ensures c ^ (1 | (p << 1)) == (c ^ 1) ^ (p << 1)
  {
  }

  /** The lowest bit of a word enters with the exclusive or; the others wait until the shifts
      bring them down. */
  lemma FirstBitOfAWord(c: bv32, b: bool, p: bv32)
    requires p < 0x80000000
    ensures Shift(Xor(c, Before(b, p))) == Xor(Enter(c, b), p)
  {
    hide Shift, Xor, Double, Before, Low;
    ShiftLinear(Xor(c, Low(b)), p);
    XorBefore(c, b, p);
  }

  lemma XorBefore(c: bv32, b: bool, p: bv32)
    ensures Xor(c, Before(b, p)) == Xor(Xor(c, Low(b)), Double(p))
  {
    hide Xor, Before, Low, Double;
    if b {
      XorBefore1(c, p);
    } else {
      XorBefore0(c, p);
    }
  }

  lemma XorBefore0(c: bv32, p: bv32)
    ensures Xor(c, Before(false, p)) == Xor(Xor(c, Low(false)), Double(p))
  {
    Split0(c, p);
  }

  lemma XorBefore1(c: bv32, p: bv32)
    ensures Xor(c, Before(true, p)) == Xor(Xor(c, Low(true)), Double(p))
  {
    Split1(c, p);
  }

  lemma XorNothing(c: bv32)
    ensures Xor(c, 0) == c
  {
  }

  /** Up to 32 bits fed one at a time equal one exclusive or of the whole word, then that many
      shifts. */
  lemma {:induction false} FeedingBitsIsOneXor(c: bv32, bits: seq<bool>)
    requires |bits| <= 32
    ensures FeedBits(c, bits) == Shifts(Xor(c, Pack(bits)), |bits|)
    decreases |bits|
  {
    hide Enter, Shift, Before, Xor;
    if bits == [] {
      XorNothing(c);
    } else {
      PackTail(bits);
      FeedingBitsIsOneXor(Enter(c, bits[0]), bits[1..]);
      FirstBitOfAWord(c, bits[0], Pack(bits[1..]));
    }
  }

  lemma {:induction false} FeedBitsConcat(c: bv32, s: seq<bool>, t: seq<bool>)
    ensures FeedBits(c, s + t) == FeedBits(FeedBits(c, s), t)
    decreases |s|
  {
    hide Enter;
    if s == [] {
      assert s + t == t;
    } else {
      assert (s + t)[0] == s[0] && (s + t)[1..] == s[1..] + t;
      FeedBitsConcat(Enter(c, s[0]), s[1..], t);
    }
  }

  // --------------------------------------------- the byte loop is the bit loop

  function WordOfEight(a: bool, b: bool, c: bool, d: bool, e: bool, f: bool, g: bool, h: bool): bv32 {
    Before(a, Before(b, Before(c, Before(d, Before(e, Before(f, Before(g, Before(h, 0))))))))
  }

  lemma ByteOfBits(b: bv8)
    ensures WordOfEight(b & 1 == 1, (b >> 1) & 1 == 1, (b >> 2) & 1 == 1, (b >> 3) & 1 == 1,
                        (b >> 4) & 1 == 1, (b >> 5) & 1 == 1, (b >> 6) & 1 == 1, (b >> 7) & 1 == 1)
         == b as bv32
  {
  }

  lemma PackFrom(s: seq<bool>, i: nat)
    requires i < |s|
    ensures Pack(s[i..]) == Before(s[i], Pack(s[i + 1..]))
  {
    hide Before;
    assert s[i..][1..] == s[i + 1..];
  }

  lemma PackOfEight(s: seq<bool>)
    requires |s| == 8
    ensures Pack(s) == WordOfEight(s[0], s[1], s[2], s[3], s[4], s[5], s[6], s[7])
  {
    hide Before, Pack;
    assert s[0..] == s;
    PackFrom(s, 0);
    PackFrom(s, 1);
    PackFrom(s, 2);
    PackFrom(s, 3);
    PackFrom(s, 4);
    PackFrom(s, 5);
    PackFrom(s, 6);
    PackFrom(s, 7);
    PackNone(s[8..]);
  }

  lemma PackNone(s: seq<bool>)
    requires s == []
    ensures Pack(s) == 0
  {
  }

  lemma PackOfByte(b: bv8)
    ensures Pack(BitsOfByte(b)) == b as bv32
  {
    hide Pack, WordOfEight;
    PackOfEight(BitsOfByte(b));
    ByteOfBits(b);
  }

  lemma {:induction false} FeedIsBitSerial(c: bv32, s: seq<bv8>)
    ensures Feed(c, s) == FeedBits(c, BitsOf(s))
    decreases |s|
  {
    hide Enter, Shift, Shifts, BitsOfByte, Pack, Before, Xor;
    if s != [] {
      var bits := BitsOfByte(s[0]);
      FeedBitsConcat(c, bits, BitsOf(s[1..]));
      FeedingBitsIsOneXor(c, bits);
      PackOfByte(s[0]);
      FeedIsBitSerial(FeedBits(c, bits), s[1..]);
    }
  }

  // ------------------------------------------------------------- what it detects

  lemma {:induction false} SameBitsKeepApart(a: bv32, b: bv32, bits: seq<bool>)
    ensures FeedBits(a, bits) == FeedBits(b, bits) <==> a == b
    decreases |bits|
  {
    hide Enter;
    if bits != [] {
      SameBitsKeepApart(Enter(a, bits[0]), Enter(b, bits[0]), bits[1..]);
      EnterInjective(a, b, bits[0]);
    }
  }

  lemma EnterInjective(a: bv32, b: bv32, bit: bool)
    ensures Enter(a, bit) == Enter(b, bit) <==> a == b
  {
    hide Shift, Unshift, Xor, Low;
    ShiftIsABijection(Xor(a, Low(bit)));
    ShiftIsABijection(Xor(b, Low(bit)));
    XorCancels(a, b, Low(bit));
  }

  lemma XorCancels(a: bv32, b: bv32, m: bv32)
    ensures Xor(a, m) == Xor(b, m) <==> a == b
    ensures Xor(m, a) == Xor(m, b) <==> a == b
  {
  }

  /** Two different windows of at most 32 bits, after the same prefix and before the same suffix,
      never leave the same register. */
  lemma WindowOfBitsDetected(before: seq<bool>, v: seq<bool>, w: seq<bool>, after: seq<bool>)
    requires |v| == |w| <= 32 && v != w
    ensures FeedBits(SEED, before + v + after) != FeedBits(SEED, before + w + after)
  {
    hide Enter, Pack, Xor, Shifts;
    var c := FeedBits(SEED, before);
    FeedBitsConcat(SEED, before + v, after);
    FeedBitsConcat(SEED, before + w, after);
    FeedBitsConcat(SEED, before, v);
    FeedBitsConcat(SEED, before, w);
    SameBitsKeepApart(FeedBits(c, v), FeedBits(c, w), after);
    FeedingBitsIsOneXor(c, v);
    FeedingBitsIsOneXor(c, w);
    if Pack(v) == Pack(w) {
      PackInjective(v, w);
    }
    XorCancels(Pack(v), Pack(w), c);
    ShiftsInjective(Xor(c, Pack(v)), Xor(c, Pack(w)), |v|);
  }

  /** The two bit strings differ, and only inside bits lo to lo + 31. */
  ghost predicate BurstFrom(s: seq<bool>, t: seq<bool>, lo: nat) {
    |s| == |t| && s != t
    && forall i :: 0 <= i < |s| && s[i] != t[i] ==> lo <= i < lo + 32
  }

  lemma BurstOfBitsDetected(a: seq<bool>, b: seq<bool>, lo: nat)
    requires BurstFrom(a, b, lo)
    ensures FeedBits(SEED, a) != FeedBits(SEED, b)
  {
    hide FeedBits;
    var from, to := if lo < |a| then lo else |a|, if lo + 32 < |a| then lo + 32 else |a|;
    assert a[..from] == b[..from] && a[to..] == b[to..];
    assert a == a[..from] + a[from..to] + a[to..] && b == a[..from] + b[from..to] + a[to..];
    WindowOfBitsDetected(a[..from], a[from..to], b[from..to], a[to..]);
  }

  /** The burst guarantee, for buffers of any length: two buffers of the same length whose
      differences lie within 32 consecutive bits (so, within four consecutive bytes, or across
      five when not aligned) have different checksums. */
  lemma BurstDetected(s: seq<bv8>, t: seq<bv8>, lo: nat)
    requires |s| == |t| && BurstFrom(BitsOf(s), BitsOf(t), lo)
    ensures Checksum(s) != Checksum(t)
  {
    hide Complement, Feed, FeedBits, BitsOf, BurstFrom;
    BurstOfBitsDetected(BitsOf(s), BitsOf(t), lo);
    FeedIsBitSerial(SEED, s);
    FeedIsBitSerial(SEED, t);
    ComplementInjective(Feed(SEED, s), Feed(SEED, t));
  }

  lemma ComplementTwice(a: bv32)
    ensures Complement(Complement(a)) == a
  {
  }

  lemma ComplementInjective(a: bv32, b: bv32)
    ensures Complement(a) == Complement(b) <==> a == b
  {
    hide Complement;
    ComplementTwice(a);
    ComplementTwice(b);
  }

  /** The two buffers differ, and only inside bytes at to at + 3. */
  ghost predicate FourBytesFrom(s: seq<bv8>, t: seq<bv8>, at: nat) {
    |s| == |t| && s != t
    && forall i :: 0 <= i < |s| && s[i] != t[i] ==> at <= i < at + 4
  }

  lemma {:induction false} BitsOfAt(s: seq<bv8>, i: nat)
    requires i < |s|
    ensures BitsOf(s)[8 * i..8 * i + 8] == BitsOfByte(s[i])
    decreases i
  {
    hide BitsOfByte;
    if i > 0 {
      BitsOfAt(s[1..], i - 1);
      assert BitsOf(s)[8 * i..8 * i + 8] == BitsOf(s[1..])[8 * (i - 1)..8 * (i - 1) + 8];
    }
  }

  /** Any corruption confined to four consecutive bytes is detected. */
  lemma FourByteBurstDetected(s: seq<bv8>, t: seq<bv8>, at: nat)
    requires FourBytesFrom(s, t, at)
    ensures Checksum(s) != Checksum(t)
  {
    hide BitsOfByte, Checksum;
    var a, b := BitsOf(s), BitsOf(t);
    forall i | 0 <= i < |a| && a[i] != b[i]
      ensures 8 * at <= i < 8 * at + 32
    {
      var k, r := i / 8, i % 8;
      BitsOfAt(s, k);
      BitsOfAt(t, k);
      assert a[i] == BitsOfByte(s[k])[r] && b[i] == BitsOfByte(t[k])[r];
    }
    var d :| 0 <= d < |s| && s[d] != t[d];
    BitsOfAt(s, d);
    BitsOfAt(t, d);
    PackOfByte(s[d]);
    PackOfByte(t[d]);
    SameWordSameByte(s[d], t[d]);
    BurstDetected(s, t, 8 * at);
  }

  lemma SameWordSameByte(b: bv8, c: bv8)
    ensures b as bv32 == c as bv32 <==> b == c
  {
  }
}
