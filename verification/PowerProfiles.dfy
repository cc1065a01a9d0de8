/** What the dock handshake asks a source for (usbpd.c): the power data objects of USB Power Delivery
    R3.0 section 6.4.1, the choice among them, and the request object of section 6.4.2. */
module PowerProfiles {
  import opened Bits
  import opened Division

  const MAX_PROFILES := 7

  datatype Profile = Profile(mv: nat, ma: nat)

  // -------------------------------------------------------------- reading

  /** `_pdo_decode`: ten bits of current in 10 mA, ten of voltage in 50 mV. */
  function Decode(pdo: nat): Profile {
    Profile(Field(pdo, 10, 10) * 50, Field(pdo, 0, 10) * 10)
  }

  function Word(b: seq<Byte>, at: nat): (w: nat)
    requires at + 4 <= |b|
    ensures w < WORD
  {
    (b[at] as nat) + 0x100 * (b[at + 1] as nat) + 0x1_0000 * (b[at + 2] as nat) + 0x100_0000 * (b[at + 3] as nat)
  }

  /** The profiles in the 29-byte block: a byte count, then words. */
  function Profiles(b: seq<Byte>): (ps: seq<Profile>)
    requires |b| == 29
    ensures |ps| <= MAX_PROFILES
  {
    var n := if b[0] / 4 > MAX_PROFILES then MAX_PROFILES else b[0] / 4;
    seq(n, i requires 0 <= i < n => Decode(Word(b, 1 + 4 * i)))
  }

  /** `_read_pdos`: nothing when the read failed. */
  method ReadPdos(ok: bool, b: seq<Byte>) returns (ps: seq<Profile>)
    requires |b| == 29
    ensures ps == if ok then Profiles(b) else []
  {
    hide Decode, Word;
    ps := [];
    if !ok {
      return;
    }
    var n := b[0] / 4;
    if n > 7 {
      n := 7;
    }
    for i := 0 to n
      invariant ps == Profiles(b)[..i]
    {
      ps := ps + [Decode(Word(b, 1 + 4 * i))];
    }
  }

  /** A fixed supply object as section 6.4.1 lays it out, flags on top. */
  function FixedSupply(flags: nat, mv: nat, ma: nat): nat {
    flags * 0x10_0000 + mv / 50 * 0x400 + ma / 10
  }

  lemma DecodeReadsFixedSupply(flags: nat, mv: nat, ma: nat)
    requires mv % 50 == 0 && mv / 50 < 0x400 && ma % 10 == 0 && ma / 10 < 0x400
    ensures Decode(FixedSupply(flags, mv, ma)) == Profile(mv, ma)
  {
    var pdo := FixedSupply(flags, mv, ma);
    assert Pow2(10) == 0x400 && Pow2(0) == 1;
    DivModIs(pdo, flags * 0x400 + mv / 50, ma / 10, 0x400);
    DivModIs(flags * 0x400 + mv / 50, flags, mv / 50, 0x400);
  }

  /** A word of the block, low byte first. */
  function WordBytes(w: nat): (b: seq<Byte>)
    requires w < WORD
    ensures |b| == 4
  {
    [w % 0x100, w / 0x100 % 0x100, w / 0x1_0000 % 0x100, w / 0x100_0000]
  }

  /** A profile a fixed supply object can name. */
  predicate Nameable(p: Profile) {
    p.mv % 50 == 0 && p.mv / 50 < 0x400 && p.ma % 10 == 0 && p.ma / 10 < 0x400
  }

  function Supply(p: Profile): (b: seq<Byte>)
    requires Nameable(p)
    ensures |b| == 4
  {
    WordBytes(FixedSupply(0, p.mv, p.ma))
  }

  /** What a source that offers `ps` puts in the block, as section 6.4.1 lays it out. */
  function Words(ps: seq<Profile>): (b: seq<Byte>)
    requires forall p :: p in ps ==> Nameable(p)
    ensures |b| == 4 * |ps|
    decreases |ps|
  {
    if ps == [] then [] else Words(ps[..|ps| - 1]) + Supply(ps[|ps| - 1])
  }

  lemma {:induction false} WordsAt(ps: seq<Profile>, i: nat)
    requires (forall p :: p in ps ==> Nameable(p)) && i < |ps|
    ensures Words(ps)[4 * i..4 * i + 4] == Supply(ps[i])
    decreases |ps|
  {
    hide Supply;
    var n := |ps| - 1;
    if i < n {
      WordsAt(ps[..n], i);
      assert Words(ps)[4 * i..4 * i + 4] == Words(ps[..n])[4 * i..4 * i + 4];
    }
  }

  lemma WordReadsBack(w: nat)
    requires w < WORD
    ensures Word(WordBytes(w), 0) == w
  {
    var a, b, c := w / 0x100, w / 0x1_0000, w / 0x100_0000;
    DivModIs(w, b, w % 0x1_0000, 0x1_0000);
    DivModIs(w / 0x100, b, w / 0x100 - b * 0x100, 0x100);
    DivModIs(b, c, b - c * 0x100, 0x100);
  }

  /** Any offer of up to seven profiles is read back as it was put. */
  lemma OffersReadBack(ps: seq<Profile>, b: seq<Byte>)
    requires |ps| <= 7 && (forall p :: p in ps ==> Nameable(p))
    requires |b| == 29 && b[0] == 4 * |ps| && b[1..1 + 4 * |ps|] == Words(ps)
    ensures Profiles(b) == ps
  {
    hide Decode, WordBytes, FixedSupply, Words;
    assert b[0] / 4 == |ps|;
    forall i | 0 <= i < |ps|
      ensures Profiles(b)[i] == ps[i]
    {
      var w := FixedSupply(0, ps[i].mv, ps[i].ma);
      SupplyFits(ps[i]);
      WordsAt(ps, i);
      assert Words(ps)[4 * i..4 * i + 4] == WordBytes(w);
      Inside(b, 1, 4 * |ps|, 4 * i);
      WordReadsBack(w);
      SameWord(b, 1 + 4 * i, WordBytes(w));
      DecodeReadsFixedSupply(0, ps[i].mv, ps[i].ma);
    }
  }

  lemma Inside(b: seq<Byte>, from: nat, n: nat, i: nat)
    requires from + n <= |b| && i + 4 <= n
    ensures b[from..from + n][i..i + 4] == b[from + i..from + i + 4]
  {
    var v := b[from..from + n];
    assert forall k :: 0 <= k < n ==> v[k] == b[from + k];
    var u := v[i..i + 4];
    assert u[0] == v[i] && u[1] == v[i + 1] && u[2] == v[i + 2] && u[3] == v[i + 3];
  }

  lemma SupplyFits(p: Profile)
    requires Nameable(p)
    ensures FixedSupply(0, p.mv, p.ma) < WORD
  {
  }

  lemma SameWord(b: seq<Byte>, at: nat, w: seq<Byte>)
    requires |w| == 4 && at + 4 <= |b| && b[at..at + 4] == w
    ensures Word(b, at) == Word(w, 0)
  {
    var v := b[at..at + 4];
    assert v[0] == b[at] && v[1] == b[at + 1] && v[2] == b[at + 2] && v[3] == b[at + 3];
  }

  // -------------------------------------------------------------- choosing

  predicate Admissible(p: Profile) {
    (p.mv == 5000 || p.mv == 9000 || p.mv == 12000 || p.mv == 15000) && p.ma <= 3000
  }

  function Power(p: Profile): nat {
    p.mv * p.ma
  }

  predicate DockShaped(ps: seq<Profile>) {
    |ps| == 2 && ps[0] == Profile(5000, 500)
  }

  predicate DockOffer(ps: seq<Profile>) {
    DockShaped(ps) && ps[1].mv == 15000 && 2600 <= ps[1].ma <= 3000
  }

  /** Position i (from 0) beats everything before it and is not beaten after: the first admissible
      profile of greatest power. */
  ghost predicate FirstGreatest(ps: seq<Profile>, i: nat) {
    i < |ps| && Admissible(ps[i]) && Power(ps[i]) > 0
    && (forall j :: 0 <= j < |ps| && Admissible(ps[j]) ==> Power(ps[j]) <= Power(ps[i]))
    && (forall j :: 0 <= j < i && Admissible(ps[j]) ==> Power(ps[j]) < Power(ps[i]))
  }

  /** When no admissible profile has any current, only a 5 V one is taken: the first. */
  ghost predicate FirstIdleFive(ps: seq<Profile>, i: nat) {
    i < |ps| && Admissible(ps[i]) && ps[i].mv == 5000
    && (forall j :: 0 <= j < |ps| && Admissible(ps[j]) ==> Power(ps[j]) == 0)
    && (forall j :: 0 <= j < i && Admissible(ps[j]) ==> ps[j].mv != 5000)
  }

  ghost predicate Picks(ps: seq<Profile>, pick: nat) {
    if DockShaped(ps) then pick == (if DockOffer(ps) then 2 else 0)
    else if pick == 0 then
      forall j :: 0 <= j < |ps| && Admissible(ps[j]) ==> Power(ps[j]) == 0 && ps[j].mv != 5000
    else FirstGreatest(ps, pick - 1) || FirstIdleFive(ps, pick - 1)
  }

  /** One turn of the search. */
  function Better(p: Profile, i: nat, best: nat, pick: nat): bool {
    Admissible(p) && (Power(p) > best || (pick == 0 && p.mv == 5000))
  }

  function Search(ps: seq<Profile>, i: nat, best: nat, pick: nat): (r: nat)
    requires i <= |ps| && pick <= i && (pick > 0 ==> Admissible(ps[pick - 1]))
    ensures r <= |ps| && (r > 0 ==> Admissible(ps[r - 1]))
    decreases |ps| - i
  {
    if i == |ps| then pick
    else if Better(ps[i], i, best, pick) then Search(ps, i + 1, Power(ps[i]), i + 1)
    else Search(ps, i + 1, best, pick)
  }

  function Choose(ps: seq<Profile>): (pick: nat)
    ensures pick <= |ps| && (pick > 0 ==> Admissible(ps[pick - 1]))
  {
    if DockShaped(ps) then (if DockOffer(ps) then 2 else 0) else Search(ps, 0, 0, 0)
  }

  /** `_choose`: the pick, counted from one, or zero. */
  method ChooseProfile(ps: seq<Profile>) returns (pick: nat, dockPower: bool)
    ensures pick == Choose(ps)
    ensures dockPower <==> DockOffer(ps)
  {
    pick, dockPower := 0, false;
    if |ps| == 2 && ps[0].mv == 5000 && ps[0].ma == 500 {
      if ps[1].mv == 15000 && ps[1].ma >= 2600 && ps[1].ma <= 3000 {
        return 2, true;
      }
      return 0, false;
    }
    var best := 0;
    for i := 0 to |ps|
      invariant pick <= i && (pick > 0 ==> Admissible(ps[pick - 1]))
      invariant Search(ps, i, best, pick) == Search(ps, 0, 0, 0)
    {
      var mv, ma := ps[i].mv, ps[i].ma;
      if mv != 5000 && mv != 9000 && mv != 12000 && mv != 15000 {
        continue;
      }
      if ma > 3000 {
        continue;
      }
      if mv * ma > best || (pick == 0 && mv == 5000) {
        best := mv * ma;
        pick := i + 1;
      }
    }
  }

  /** What the search has settled over the first i profiles. */
  ghost predicate Settled(ps: seq<Profile>, i: nat, best: nat, pick: nat) {
    i <= |ps| && pick <= i
    && (forall j :: 0 <= j < i && Admissible(ps[j]) ==> Power(ps[j]) <= best)
    && (if pick == 0 then best == 0 && forall j :: 0 <= j < i && Admissible(ps[j]) ==> ps[j].mv != 5000
        else Admissible(ps[pick - 1]) && Power(ps[pick - 1]) == best
             && (best > 0 ==> forall j :: 0 <= j < pick - 1 && Admissible(ps[j]) ==> Power(ps[j]) < best)
             && (best == 0 ==> ps[pick - 1].mv == 5000
                               && forall j :: 0 <= j < pick - 1 && Admissible(ps[j]) ==> ps[j].mv != 5000))
  }

  lemma {:induction false} SearchSettles(ps: seq<Profile>, i: nat, best: nat, pick: nat)
    requires Settled(ps, i, best, pick) && !DockShaped(ps)
    ensures Picks(ps, Search(ps, i, best, pick))
    decreases |ps| - i
  {
    hide Power;
    if i < |ps| {
      if Better(ps[i], i, best, pick) {
        SearchSettles(ps, i + 1, Power(ps[i]), i + 1);
      } else {
        SearchSettles(ps, i + 1, best, pick);
      }
    }
  }

  /** For every list of profiles: the exact dock offer, or the first admissible profile of greatest
      power (or the first idle 5 V one when none has power), or nothing to take. */
  lemma ChoosePicks(ps: seq<Profile>)
    ensures Picks(ps, Choose(ps))
  {
    if !DockShaped(ps) {
      SearchSettles(ps, 0, 0, 0);
    }
  }

  /** The rule leaves no freedom. */
  lemma PickUnique(ps: seq<Profile>, a: nat, b: nat)
    requires Picks(ps, a) && Picks(ps, b)
    ensures a == b
  {
    hide Power;
  }

  /** The choice in figures: the dock's two profiles exactly, or the most power at 5, 9, 12 or 15 V and at
      most 3 A, the first of equals. */
  lemma ChoiceInFigures(ps: seq<Profile>)
    ensures forall p: Profile :: Admissible(p) <==>
              (p.mv == 5000 || p.mv == 9000 || p.mv == 12000 || p.mv == 15000) && p.ma <= 3000
    ensures |ps| == 2 && ps[0] == Profile(5000, 500) ==>
              Choose(ps) == if ps[1].mv == 15000 && 2600 <= ps[1].ma <= 3000 then 2 else 0
    ensures !(|ps| == 2 && ps[0] == Profile(5000, 500)) && Choose(ps) > 0 ==>
              var best := ps[Choose(ps) - 1];
              && (best.mv == 5000 || best.mv == 9000 || best.mv == 12000 || best.mv == 15000) && best.ma <= 3000
              && (forall j :: 0 <= j < |ps| && Admissible(ps[j]) ==>
                    ps[j].mv * ps[j].ma <= best.mv * best.ma
                    && (j < Choose(ps) - 1 && best.ma > 0 ==> ps[j].mv * ps[j].ma < best.mv * best.ma))
    ensures !(|ps| == 2 && ps[0] == Profile(5000, 500)) && Choose(ps) == 0 ==>
              forall j :: 0 <= j < |ps| && Admissible(ps[j]) ==>
                ps[j].ma == 0 && ps[j].mv != 5000
  {
    hide Choose;
    ChoosePicks(ps);
    if !DockShaped(ps) && Choose(ps) > 0 {
      var best := ps[Choose(ps) - 1];
      assert Admissible(best);
      assert Power(best) > 0 <==> best.ma > 0 by {
        PowerIsPositive(best);
      }
    }
    forall j | 0 <= j < |ps| && Admissible(ps[j])
      ensures Power(ps[j]) > 0 <==> ps[j].ma > 0
    {
      PowerIsPositive(ps[j]);
    }
  }

  lemma PowerIsPositive(p: Profile)
    requires Admissible(p)
    ensures Power(p) > 0 <==> p.ma > 0
  {
  }

  // ------------------------------------------------------ operating current

  const STEPS: seq<nat> := [100, 150, 500, 900, 1200, 1500, 2000, 3000]

  function Reserve(mv: nat): nat
    requires mv > 0
  {
    (if mv > 5000 then 4500000 else 2500000) / mv
  }

  function Cap(mv: nat): nat {
    if mv >= 15000 then 1200 else if mv == 12000 then 1500 else 2000
  }

  /** The subtraction is on 32-bit words: below the reserve it wraps to a huge current. */
  function Limit(mv: nat, ma: nat): (limit: nat)
    requires mv > 0
    ensures limit <= Cap(mv)
  {
    var less := (ma - Reserve(mv)) % WORD;
    if less > Cap(mv) then Cap(mv) else less
  }

  function StepFrom(limit: nat, i: int): nat
    requires -1 <= i < |STEPS|
    decreases i + 1
  {
    if i < 0 then 100 else if limit >= STEPS[i] then STEPS[i] else StepFrom(limit, i - 1)
  }

  function OpMa(mv: nat, ma: nat): nat
    requires mv > 0
  {
    StepFrom(Limit(mv, ma), |STEPS| - 1)
  }

  /** `_op_ma`. */
  method OperatingCurrent(mv: nat, ma: nat) returns (op: nat)
    requires mv > 0
    ensures op == OpMa(mv, ma)
  {
    var limit := (ma - (if mv > 5000 then 4500000 else 2500000) / mv) % WORD;
    var cap := if mv >= 15000 then 1200 else if mv == 12000 then 1500 else 2000;
    if limit > cap {
      limit := cap;
    }
    var i := 7;
    while i >= 0
      invariant -1 <= i < |STEPS| && StepFrom(limit, i) == OpMa(mv, ma)
    {
      if limit >= STEPS[i] {
        return STEPS[i];
      }
      i := i - 1;
    }
    return 100;
  }

  /** The step is the greatest one allowed, or the smallest of all. */
  lemma {:induction false} StepIsGreatest(limit: nat, i: int)
    requires -1 <= i < |STEPS|
    requires forall k :: i < k < |STEPS| ==> STEPS[k] > limit
    ensures StepFrom(limit, i) in STEPS
    ensures limit >= 100 ==> StepFrom(limit, i) <= limit
                             && forall k :: 0 <= k < |STEPS| && STEPS[k] <= limit ==> STEPS[k] <= StepFrom(limit, i)
    ensures limit < 100 ==> StepFrom(limit, i) == 100
    decreases i + 1
  {
    assert STEPS[0] == 100;
    if i >= 0 && limit < STEPS[i] {
      StepIsGreatest(limit, i - 1);
    } else if i >= 0 {
      assert STEPS[0] <= STEPS[i];
    }
  }

  /** For a profile the choice can take, the operating current is an allowed step, and it is within the
      profile exactly when the profile covers the reserve: below it, more is asked than is offered. */
  lemma OperatingWithinProfile(p: Profile)
    requires Admissible(p)
    ensures OpMa(p.mv, p.ma) in STEPS
    ensures OpMa(p.mv, p.ma) <= p.ma <==> p.ma >= Reserve(p.mv)
  {
    hide Reserve, Limit, StepFrom;
    ReserveValues();
    LimitIs(p.mv, p.ma);
    StepIsGreatest(Limit(p.mv, p.ma), |STEPS| - 1);
    CapsAreSteps(p.mv);
    assert STEPS[0] == 100;
  }

  lemma ReserveValues()
    ensures Reserve(5000) == 500 && Reserve(9000) == 500 && Reserve(12000) == 375 && Reserve(15000) == 300
  {
  }

  lemma LimitIs(mv: nat, ma: nat)
    requires 0 < mv && ma <= 3000 && Reserve(mv) <= 3000
    ensures Limit(mv, ma) == if ma < Reserve(mv) || ma - Reserve(mv) > Cap(mv) then Cap(mv) else ma - Reserve(mv)
  {
    hide Reserve;
    if ma < Reserve(mv) {
      DivModIs(ma - Reserve(mv), -1, ma - Reserve(mv) + WORD, WORD);
    }
  }

  lemma CapsAreSteps(mv: nat)
    ensures Cap(mv) in STEPS && Cap(mv) >= 1200
  {
    assert STEPS[4] == 1200 && STEPS[5] == 1500 && STEPS[6] == 2000;
  }

  predicate IsStep(ma: nat) {
    ma == 100 || ma == 150 || ma == 500 || ma == 900 || ma == 1200 || ma == 1500 || ma == 2000 || ma == 3000
  }

  /** The operating current in figures. When the profile covers the reserve (500 mA at 5 and 9 V, 375 at 12,
      300 at 15) it is the greatest of the eight steps within what is left of the profile and within 2000,
      2000, 1500 and 1200 mA, or 100 when none is. Below the reserve it is that cap itself. */
  lemma OperatingInFigures(p: Profile)
    requires Admissible(p)
    ensures var reserve := if p.mv == 15000 then 300 else if p.mv == 12000 then 375 else 500;
            var most := if p.mv == 15000 then 1200 else if p.mv == 12000 then 1500 else 2000;
            var op := OpMa(p.mv, p.ma);
            if p.ma < reserve then op == most
            else
              && IsStep(op)
              && (op == 100 || (op <= p.ma - reserve && op <= most))
              && (forall s: nat :: IsStep(s) && s <= p.ma - reserve && s <= most ==> s <= op)
  {
    hide Reserve, Limit, StepFrom, Cap;
    ReserveValues();
    LimitIs(p.mv, p.ma);
    CapValues();
    GreatestStep(Limit(p.mv, p.ma));
    assert IsStep(2000) && IsStep(1500) && IsStep(1200);
  }

  lemma GreatestStep(limit: nat)
    ensures var op := StepFrom(limit, |STEPS| - 1);
            && IsStep(op) && (op == 100 || op <= limit)
            && (forall s: nat :: IsStep(s) && s <= limit ==> s <= op)
  {
    hide StepFrom;
    StepIsGreatest(limit, |STEPS| - 1);
    var op := StepFrom(limit, |STEPS| - 1);
    StepIn(op);
    forall s: nat | IsStep(s) && s <= limit
      ensures s <= op
    {
      var k := StepAt(s);
    }
  }

  lemma StepIn(op: nat)
    requires op in STEPS
    ensures IsStep(op)
  {
    var k :| 0 <= k < |STEPS| && STEPS[k] == op;
    assert k == 0 || k == 1 || k == 2 || k == 3 || k == 4 || k == 5 || k == 6 || k == 7;
  }

  lemma StepAt(s: nat) returns (k: nat)
    requires IsStep(s)
    ensures k < |STEPS| && STEPS[k] == s
  {
    k := if s == 100 then 0 else if s == 150 then 1 else if s == 500 then 2 else if s == 900 then 3
    else if s == 1200 then 4 else if s == 1500 then 5 else if s == 2000 then 6 else 7;
  }

  lemma CapValues()
    ensures Cap(5000) == Cap(9000) == 2000 && Cap(12000) == 1500 && Cap(15000) == 1200
  {
  }

  /** Whatever the dock offers at 15 V, it is asked for 1200 mA. */
  lemma DockIsAskedFor1200(ps: seq<Profile>)
    requires |ps| == 2 && ps[0] == Profile(5000, 500) && ps[1].mv == 15000 && 2600 <= ps[1].ma <= 3000
    ensures Choose(ps) == 2 && OpMa(ps[1].mv, ps[1].ma) == 1200
  {
    hide OpMa, Choose;
    ChoiceInFigures(ps);
    OperatingInFigures(ps[1]);
    assert IsStep(1200);
  }

  /** A 5 V charger that offers 400 mA is asked to run at 2 A. */
  lemma ReserveWraps()
    ensures Admissible(Profile(5000, 400)) && OpMa(5000, 400) == 2000
  {
    hide Reserve, Limit;
    ReserveValues();
    LimitIs(5000, 400);
    assert STEPS[6] == 2000 && StepFrom(2000, 7) == StepFrom(2000, 6);
  }

  // --------------------------------------------------------------- requesting

  /** The request object as `_send_rdo` ors it together. */
  function Rdo(pick: nat, op: nat, ma: nat): nat {
    Or(Or(Or(ma / 10, op / 10 * Pow2(10)), Pow2(26)), pick * Pow2(28))
  }

  /** Section 6.4.2: the object's position, its operating and maximum current, and the USB capability
      bit read back from the word. */
  lemma RdoReadsBack(pick: nat, op: nat, ma: nat)
    requires 1 <= pick <= MAX_PROFILES && op % 10 == 0 && op / 10 < 0x400 && ma % 10 == 0 && ma / 10 < 0x400
    ensures var w := Rdo(pick, op, ma);
            && w == pick * 0x1000_0000 + 0x400_0000 + op / 10 * 0x400 + ma / 10 < WORD
            && Field(w, 28, 3) == pick && Field(w, 26, 1) == 1
            && Field(w, 10, 10) * 10 == op && Field(w, 0, 10) * 10 == ma
  {
    hide Pow2, Or;
    Powers();
    var low := ma / 10 + op / 10 * 0x400;
    OrOfDisjoint(ma / 10, op / 10, 10);
    OrOfDisjoint(low, 1, 26);
    OrOfDisjoint(low + 0x400_0000, pick, 28);
    var w := low + 0x400_0000 + pick * 0x1000_0000;
    assert Rdo(pick, op, ma) == w;
    DivModIs(w, pick, low + 0x400_0000, 0x1000_0000);
    DivModIs(w, 1 + 4 * pick, low, 0x400_0000);
    DivModIs(w, op / 10 + 0x1_0000 + 0x4_0000 * pick, ma / 10, 0x400);
    DivModIs(op / 10 + 0x1_0000 + 0x4_0000 * pick, 0x40 + 0x100 * pick, op / 10, 0x400);
  }

  lemma Powers()
    ensures Pow2(0) == 1 && Pow2(1) == 2 && Pow2(3) == 8 && Pow2(10) == 0x400
    ensures Pow2(26) == 0x400_0000 && Pow2(28) == 0x1000_0000
  {
    assert Pow2(14) == 0x4000;
    assert Pow2(18) == 0x4_0000;
    assert Pow2(22) == 0x40_0000;
    assert Pow2(26) == 0x400_0000;
  }

  /** What is asked for a profile of the list decodes to that profile's position and current, and to
      the operating current settled on. */
  lemma RequestNamesTheProfile(b: seq<Byte>, pick: nat, p: Profile)
    requires |b| == 29 && pick == Choose(Profiles(b)) > 0 && p == Profiles(b)[pick - 1]
    ensures Admissible(p)
    ensures Field(Rdo(pick, OpMa(p.mv, p.ma), p.ma), 28, 3) == pick
    ensures Field(Rdo(pick, OpMa(p.mv, p.ma), p.ma), 0, 10) * 10 == p.ma
    ensures Field(Rdo(pick, OpMa(p.mv, p.ma), p.ma), 10, 10) * 10 == OpMa(p.mv, p.ma)
  {
    hide Choose, OpMa, Rdo, Field, Pow2, Word, Decode, Reserve;
    ChoosePicks(Profiles(b));
    OperatingWithinProfile(p);
    StepsFit(OpMa(p.mv, p.ma));
    DecodedFits(Word(b, 1 + 4 * (pick - 1)));
    RdoReadsBack(pick, OpMa(p.mv, p.ma), p.ma);
  }

  lemma DecodedFits(pdo: nat)
    ensures Decode(pdo).ma % 10 == 0 && Decode(pdo).ma / 10 < 0x400
  {
    hide Pow2;
    Powers();
    var f := Field(pdo, 0, 10);
    assert f < 0x400;
    DivModIs(f * 10, f, 0, 10);
  }

  lemma StepsFit(op: nat)
    requires op in STEPS
    ensures op % 10 == 0 && op / 10 < 0x400
  {
  }
}
