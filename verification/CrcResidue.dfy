/** What makes the sum of `gpt_crc32` (probe_storage.c) the CRC-32 that the GPT headers of the UEFI
    specification carry: its value on nothing, its check value, and the residue that every message leaves
    when its own sum follows it. The residue is a property of the polynomial alone. */
module CrcResidue {
  import opened Crc32

  /** A sum as it is stored, low byte first. */
  function LowFirst(w: bv32): (b: seq<bv8>)
    ensures |b| == 4
  {
    [(w & 0xFF) as bv8, ((w >> 8) & 0xFF) as bv8, ((w >> 16) & 0xFF) as bv8, ((w >> 24) & 0xFF) as bv8]
  }

  // --------------------------------------------------- four bytes are one word

  lemma PackByteThen(b: bv8, rest: seq<bool>)
    ensures Pack(BitsOfByte(b) + rest) == (b as bv32) | (Pack(rest) << 8)
  {
    hide Pack, Before, BitsOfByte, WordOfEight, EightDoubles;
    PackOfByte(b);
    PackOfEight(BitsOfByte(b));
    PackEightThen(BitsOfByte(b), rest);
    EightDoublesShift(Pack(rest));
  }

  function Both(a: bv32, b: bv32): bv32 {
    a | b
  }

  lemma PackEightThen(e: seq<bool>, rest: seq<bool>)
    requires |e| == 8
    ensures Pack(e + rest) == Both(WordOfEight(e[0], e[1], e[2], e[3], e[4], e[5], e[6], e[7]),
                                   EightDoubles(Pack(rest)))
  {
    hide Pack, Before, Double, Both;
    var s, p := e + rest, Pack(rest);
    assert s[8..] == rest && s[0..] == s;
    NothingOr(p);
    FourThen(s, 4, 0, p);
    FourThen(s, 0, Before(s[4], Before(s[5], Before(s[6], Before(s[7], 0)))), Double(Double(Double(Double(p)))));
  }

  lemma FourThen(s: seq<bool>, i: nat, w: bv32, p: bv32)
    requires i + 4 <= |s| && Pack(s[i + 4..]) == Both(w, p)
    ensures Pack(s[i..]) == Both(Before(s[i], Before(s[i + 1], Before(s[i + 2], Before(s[i + 3], w)))),
                                 Double(Double(Double(Double(p)))))
  {
    hide Pack, Before, Double, Both;
    OneThen(s, i + 3, w, p);
    OneThen(s, i + 2, Before(s[i + 3], w), Double(p));
    OneThen(s, i + 1, Before(s[i + 2], Before(s[i + 3], w)), Double(Double(p)));
    OneThen(s, i, Before(s[i + 1], Before(s[i + 2], Before(s[i + 3], w))), Double(Double(Double(p))));
  }

  lemma OneThen(s: seq<bool>, i: nat, w: bv32, p: bv32)
    requires i < |s| && Pack(s[i + 1..]) == Both(w, p)
    ensures Pack(s[i..]) == Both(Before(s[i], w), Double(p))
  {
    hide Pack, Before, Double, Both;
    PackFrom(s, i);
    BeforeOver(s[i], w, p);
  }

  lemma NothingOr(p: bv32)
    ensures Both(0, p) == p
  {
  }

  lemma BeforeOver(bit: bool, q: bv32, p: bv32)
    ensures Before(bit, Both(q, p)) == Both(Before(bit, q), Double(p))
  {
    if bit {
      BeforeOver1(q, p);
    } else {
      BeforeOver0(q, p);
    }
  }

  lemma BeforeOver0(q: bv32, p: bv32)
    ensures (q | p) << 1 == (q << 1) | (p << 1)
  {
  }

  lemma BeforeOver1(q: bv32, p: bv32)
    ensures 1 | ((q | p) << 1) == (1 | (q << 1)) | (p << 1)
  {
  }

  function EightDoubles(p: bv32): bv32 {
    Double(Double(Double(Double(Double(Double(Double(Double(p))))))))
  }

  lemma EightDoublesShift(p: bv32)
    ensures EightDoubles(p) == p << 8
  {
  }

  lemma PackOfFour(a: bv8, b: bv8, c: bv8, d: bv8)
    ensures Pack(BitsOf([a, b, c, d]))
         == (a as bv32) | (((b as bv32) | (((c as bv32) | (((d as bv32) | (0 << 8)) << 8)) << 8)) << 8)
  {
    hide Pack, BitsOfByte;
    assert [a, b, c, d][1..] == [b, c, d] && [b, c, d][1..] == [c, d] && [c, d][1..] == [d] && [d][1..] == [];
    PackByteThen(a, BitsOf([b, c, d]));
    PackByteThen(b, BitsOf([c, d]));
    PackByteThen(c, BitsOf([d]));
    PackByteThen(d, []);
    PackNone([]);
  }

  lemma LowFirstIsTheWord(w: bv32)
    ensures ((w & 0xFF) as bv8 as bv32)
            | (((((w >> 8) & 0xFF) as bv8 as bv32)
                | (((((w >> 16) & 0xFF) as bv8 as bv32)
                    | (((((w >> 24) & 0xFF) as bv8 as bv32) | (0 << 8)) << 8)) << 8)) << 8)
         == w
  {
  }

  /** Feeding a stored word is one exclusive or and 32 shifts. */
  lemma FeedWord(c: bv32, w: bv32)
    ensures Feed(c, LowFirst(w)) == Shifts(Xor(c, w), 32)
  {
    hide Feed, FeedBits, Shifts, Xor, Pack, BitsOf, Shift;
    var b := LowFirst(w);
    assert b == [b[0], b[1], b[2], b[3]];
    FeedIsBitSerial(c, b);
    FeedingBitsIsOneXor(c, BitsOf(b));
    PackOfFour(b[0], b[1], b[2], b[3]);
    LowFirstIsTheWord(w);
  }

  lemma {:induction false} FeedConcat(c: bv32, s: seq<bv8>, t: seq<bv8>)
    ensures Feed(c, s + t) == Feed(Feed(c, s), t)
    decreases |s|
  {
    hide Shift, Shifts, Xor;
    if s == [] {
      assert s + t == t;
    } else {
      assert (s + t)[0] == s[0] && (s + t)[1..] == s[1..] + t;
      FeedConcat(Shifts(Xor(c, s[0] as bv32), 8), s[1..], t);
    }
  }

  lemma {:induction false} ShiftsAdd(c: bv32, m: nat, n: nat)
    ensures Shifts(c, m + n) == Shifts(Shifts(c, m), n)
    decreases m
  {
    hide Shift;
    if m > 0 {
      ShiftsAdd(Shift(c), m - 1, n);
    }
  }

  lemma EightShifts(c: bv32)
    ensures Shifts(c, 8) == Shift(Shift(Shift(Shift(Shift(Shift(Shift(Shift(c))))))))
  {
    hide Shift;
    ShiftsAdd(c, 4, 4);
    FourShifts(c);
    FourShifts(Shifts(c, 4));
  }

  lemma FourShifts(c: bv32)
    ensures Shifts(c, 4) == Shift(Shift(Shift(Shift(c))))
  {
    hide Shift;
    ShiftsAdd(c, 2, 2);
    TwoShifts(c);
    TwoShifts(Shifts(c, 2));
  }

  lemma TwoShifts(c: bv32)
    ensures Shifts(c, 2) == Shift(Shift(c))
  {
    hide Shift;
    assert Shifts(Shift(c), 1) == Shifts(Shift(Shift(c)), 0);
  }

  lemma MeetsItself(c: bv32)
    ensures Xor(c, Complement(c)) == 0xFFFFFFFF
  {
  }

  /** Any message followed by its own checksum leaves the residue of the polynomial. */
  lemma Residue(s: seq<bv8>)
    ensures Feed(SEED, s + LowFirst(Checksum(s))) == 0xDEBB20E3
  {
    hide Feed, Complement, Xor, Shifts, LowFirst;
    var c := Feed(SEED, s);
    FeedConcat(SEED, s, LowFirst(Checksum(s)));
    FeedWord(c, Checksum(s));
    MeetsItself(c);
    AllOnes();
  }

  lemma NothingSumsToZero()
    ensures Checksum([]) == 0
  {
  }

  lemma AllOnes()
    ensures Shifts(0xFFFFFFFF, 32) == 0xDEBB20E3
  {
    hide Shift, Shifts;
    ShiftsAdd(0xFFFFFFFF, 8, 24);
    ShiftsAdd(0x2DFD1072, 8, 16);
    ShiftsAdd(0xBE26ED00, 8, 8);
    EightFFFFFFFF();
    Eight2DFD1072();
    EightBE26ED00();
    Eight00BE26ED();
  }

  /** The value on nothing and the check value, the sum of the nine digits. */
  lemma CheckValue()
    ensures Checksum([]) == 0
    ensures Checksum([0x31, 0x32, 0x33, 0x34, 0x35, 0x36, 0x37, 0x38, 0x39]) == 0xCBF43926
  {
    NothingSumsToZero();
    hide Feed, Shift, Shifts;
    var s: seq<bv8> := [0x31, 0x32, 0x33, 0x34, 0x35, 0x36, 0x37, 0x38, 0x39];
    EightFFFFFFCE();
    FeedStep(0xFFFFFFFF, s, 0);
    Eight7C23107A();
    FeedStep(0x7C231048, s, 1);
    EightB0ACBB01();
    FeedStep(0xB0ACBB32, s, 2);
    Eight77B79C19();
    FeedStep(0x77B79C2D, s, 3);
    Eight641C1F69();
    FeedStep(0x641C1F5C, s, 4);
    Eight340AC5D5();
    FeedStep(0x340AC5E3, s, 5);
    EightF68D2CA9();
    FeedStep(0xF68D2C9E, s, 6);
    EightAFFC9658();
    FeedStep(0xAFFC9660, s, 7);
    Eight651F2569();
    FeedStep(0x651F2550, s, 8);
    FeedNone(0x340BC6D9, s[9..]);
  }

  lemma FeedStep(c: bv32, s: seq<bv8>, i: nat)
    requires i < |s|
    ensures Feed(c, s[i..]) == Feed(Shifts(c ^ (s[i] as bv32), 8), s[i + 1..])
  {
    hide Shift, Shifts;
    assert s[i..][0] == s[i] && s[i..][1..] == s[i + 1..];
  }

  lemma FeedNone(c: bv32, s: seq<bv8>)
    requires s == []
    ensures Feed(c, s) == c
  {
  }

  lemma EightFFFFFFFF()
    ensures Shifts(0xFFFFFFFF, 8) == 0x2DFD1072
  {
    hide Shifts;
    EightShifts(0xFFFFFFFF);
  }

  lemma Eight2DFD1072()
    ensures Shifts(0x2DFD1072, 8) == 0xBE26ED00
  {
    hide Shifts;
    EightShifts(0x2DFD1072);
  }

  lemma EightBE26ED00()
    ensures Shifts(0xBE26ED00, 8) == 0x00BE26ED
  {
    hide Shifts;
    EightShifts(0xBE26ED00);
  }

  lemma Eight00BE26ED()
    ensures Shifts(0x00BE26ED, 8) == 0xDEBB20E3
  {
    hide Shifts;
    EightShifts(0x00BE26ED);
  }

  lemma EightFFFFFFCE()
    ensures Shifts(0xFFFFFFCE, 8) == 0x7C231048
  {
    hide Shifts;
    EightShifts(0xFFFFFFCE);
  }

  lemma Eight7C23107A()
    ensures Shifts(0x7C23107A, 8) == 0xB0ACBB32
  {
    hide Shifts;
    EightShifts(0x7C23107A);
  }

  lemma EightB0ACBB01()
    ensures Shifts(0xB0ACBB01, 8) == 0x77B79C2D
  {
    hide Shifts;
    EightShifts(0xB0ACBB01);
  }

  lemma Eight77B79C19()
    ensures Shifts(0x77B79C19, 8) == 0x641C1F5C
  {
    hide Shifts;
    EightShifts(0x77B79C19);
  }

  lemma Eight641C1F69()
    ensures Shifts(0x641C1F69, 8) == 0x340AC5E3
  {
    hide Shifts;
    EightShifts(0x641C1F69);
  }

  lemma Eight340AC5D5()
    ensures Shifts(0x340AC5D5, 8) == 0xF68D2C9E
  {
    hide Shifts;
    EightShifts(0x340AC5D5);
  }

  lemma EightF68D2CA9()
    ensures Shifts(0xF68D2CA9, 8) == 0xAFFC9660
  {
    hide Shifts;
    EightShifts(0xF68D2CA9);
  }

  lemma EightAFFC9658()
    ensures Shifts(0xAFFC9658, 8) == 0x651F2550
  {
    hide Shifts;
    EightShifts(0xAFFC9658);
  }

  lemma Eight651F2569()
    ensures Shifts(0x651F2569, 8) == 0x340BC6D9
  {
    hide Shifts;
    EightShifts(0x651F2569);
  }
}
