/** The DisplayPort transfer unit (`_link_calc`, dpout.c): how many symbols of each unit carry pixels,
    as a whole number and a fraction, searched for over every unit size, and the FIFO watermark. */
module LinkParams {
  import opened Bits
  import opened Division

  /** The precision factor of the fixed-point numbers. */
  const F := 100000
  const BPP := 24
  const NO_ERROR_YET := 64 * F

  datatype Mode = Mode(pclkKhz: nat, xres: nat)

  /** The one mode the program drives: 1280x720 at 60 Hz. */
  const SCREEN := Mode(74250, 1280)

  predicate IsLanes(lanes: nat) {
    lanes == 1 || lanes == 2 || lanes == 4
  }

  predicate IsRate(bw: nat) {
    bw == 6 || bw == 10 || bw == 20
  }

  function LinkRate(bw: nat): nat {
    27 * bw * 1000 * 1000
  }

  predicate Fits(m: Mode, lanes: nat, bw: nat) {
    m.pclkKhz * 1000 * BPP < LinkRate(bw) * 8 * lanes
  }

  /** The share of the link the pixels take, in units of 1/F. */
  function Ratio(m: Mode, lanes: nat, bw: nat): nat
    requires lanes > 0 && bw > 0
  {
    m.pclkKhz * 1000 * BPP * F / 8 / (LinkRate(bw) * lanes)
  }

  /** Link symbols in a line; the cast keeps 32 bits. */
  function LineSymbols(m: Mode, bw: nat): (n: nat)
    requires m.pclkKhz > 0
    ensures n < WORD
  {
    LinkRate(bw) * m.xres / (m.pclkKhz * 1000) % WORD
  }

  // ------------------------------------------------------------- candidates

  /** One unit size: the symbols wanted, how they are approximated, and the error over a line. */
  datatype Candidate = Candidate(tu: nat, count: nat, frac: nat, polarity: bool, wanted: nat, approx: nat, err: nat) {
    predicate Over() {
      wanted < approx
    }
  }

  /** The fraction as a divisor: the distance to the nearer whole number, inverted, at most 15. */
  function FracOf(rest: nat, upper: bool): nat {
    if rest == 0 then 0
    else
      var q := F * F / rest;
      if q > 15 * F then (if upper then 1 else 15) else q / F + (if upper then 1 else 0)
  }

  function Approx(whole: nat, frac: nat, polarity: bool): nat {
    if polarity then (if frac == 0 then whole + F else (whole + (frac * F - F) * F) / (frac * F))
    else if frac == 0 then whole else whole + F / frac
  }

  function Times(a: nat, b: nat): nat {
    a * b
  }

  function Quotient(n: nat, d: nat): nat
    requires d > 0
  {
    n / d
  }

  function Gap(a: nat, b: nat): nat {
    if a < b then b - a else a - b
  }

  /** The remainder is in the upper half. */
  predicate Upper(wanted: nat) {
    wanted % F >= F / 2
  }

  function FracFor(wanted: nat): nat {
    FracOf(if Upper(wanted) then F - wanted % F else wanted % F, Upper(wanted))
  }

  predicate PolarityFor(wanted: nat) {
    Upper(wanted) && FracFor(wanted) != 1
  }

  function ApproxFor(wanted: nat): nat {
    Approx(wanted / F * F, FracFor(wanted), PolarityFor(wanted))
  }

  function CandidateOf(ratio: nat, line: nat, tu: nat): (c: Candidate)
    requires tu > 0
  {
    var wanted := Times(ratio, tu);
    Candidate(tu, wanted / F, FracFor(wanted), PolarityFor(wanted), wanted, ApproxFor(wanted),
              Times(line, Quotient(Gap(wanted, ApproxFor(wanted)), tu)))
  }

  lemma UnitOf(ratio: nat, line: nat, tu: nat)
    requires tu > 0
    ensures CandidateOf(ratio, line, tu).tu == tu
  {
    hide FracFor, PolarityFor, ApproxFor;
  }

  /** Worth keeping: no error, or an overestimate by less than the first bound. */
  predicate Eligible(c: Candidate) {
    c.err == 0 || (c.Over() && c.err < NO_ERROR_YET)
  }

  // --------------------------------------------------------------- the choice

  datatype Choice = None | Kept(c: Candidate)

  /** The choice over the unit sizes from `low` to 64: the first without error, or else the
      overestimate of least error, the largest of those; nothing when none is eligible. */
  ghost predicate Chosen(ratio: nat, line: nat, low: nat, b: Choice) {
    match b
    case None => forall j :: 0 < low <= j <= 64 ==> !Eligible(CandidateOf(ratio, line, j))
    case Kept(c) =>
      && 0 < low <= c.tu <= 64 && c == CandidateOf(ratio, line, c.tu) && Eligible(c)
      && (forall j :: c.tu < j <= 64 ==> CandidateOf(ratio, line, j).err != 0)
      && (c.err != 0 ==> forall j :: low <= j <= 64 ==> CandidateOf(ratio, line, j).err != 0)
      && (forall j :: low <= j <= 64 && Eligible(CandidateOf(ratio, line, j)) ==>
            c.err <= CandidateOf(ratio, line, j).err)
      && (forall j :: c.tu < j <= 64 && Eligible(CandidateOf(ratio, line, j)) ==>
            c.err < CandidateOf(ratio, line, j).err)
  }

  lemma ChosenUnique(ratio: nat, line: nat, a: Choice, b: Choice)
    requires Chosen(ratio, line, 32, a) && Chosen(ratio, line, 32, b)
    ensures a == b
  {
    hide CandidateOf, Eligible;
    if a.Kept? && b.Kept? {
      assert CandidateOf(ratio, line, a.c.tu) == a.c && CandidateOf(ratio, line, b.c.tu) == b.c;
    }
  }

  // -------------------------------------------------------------- the results

  datatype Params = Params(tu: nat, count: nat, frac: nat, polarity: bool, watermark: nat)

  function Watermark(ratio: nat, tu: nat, err: nat): nat
    requires ratio <= F
  {
    (Times(Times(ratio, tu), F - ratio) / F + err) / F + BPP / 4 - 1
  }

  /** Bytes of pixels in a line, for each lane. */
  function PerLine(xres: nat, lanes: nat): nat
    requires lanes > 0
  {
    var bits: nat := xres * BPP % WORD;
    Quotient(bits, 8 * lanes)
  }

  /** The fields of the search: the unit, the count, the fraction, the polarity and the error. With
      nothing kept they are what they were before it. */
  function Result(b: Choice): Candidate {
    if b.Kept? then b.c else Candidate(64, 0, 0, false, 0, 0, NO_ERROR_YET)
  }

  /** A count of zero without a fraction is decremented in 32 bits. */
  function CountFor(count: nat, frac: nat, polarity: bool): nat {
    if frac != 0 || polarity then count else (count - 1) % WORD
  }

  /** What the registers get. */
  function ParamsOf(ratio: nat, xres: nat, lanes: nat, b: Choice): Params
    requires ratio <= F && lanes > 0
  {
    var c := Result(b);
    Params(c.tu, CountFor(c.count, c.frac, c.polarity), if c.frac == 0 then 1 else c.frac, c.frac != 0 && c.polarity,
           Min(Min(Watermark(ratio, c.tu, c.err), 30), PerLine(xres, lanes)))
  }

  // ----------------------------------------------------------------- bounds

  lemma RatioBelowOne(m: Mode, lanes: nat, bw: nat)
    requires IsLanes(lanes) && IsRate(bw) && Fits(m, lanes, bw)
    ensures Ratio(m, lanes, bw) < F && m.pclkKhz * 1000 < WORD && LinkRate(bw) * lanes < WORD
  {
    var share, rate := m.pclkKhz * 1000 * BPP * F / 8, LinkRate(bw) * lanes;
    assert share < F * rate;
    QuotientBelow(share, F, rate);
  }

  lemma QuotientBelow(n: nat, q: nat, d: nat)
    requires n < q * d
    ensures d > 0 && n / d < q
  {
    if d == 0 {
    } else if n / d >= q {
      NextMultiple(q - 1, n / d, d);
    }
  }

  lemma WantedBounds(ratio: nat, tu: nat)
    requires 1 <= ratio < F && tu > 0
    ensures 1 <= Times(ratio, tu) && Times(ratio, tu) + tu <= tu * F && Times(ratio, tu) / F <= tu - 1
  {
    NextMultiple(0, ratio, tu);
    NextMultiple(ratio, F, tu);
    QuotientBelow(ratio * tu, tu, F);
  }

  lemma InverseBounds(rest: nat)
    requires 1 <= rest <= F / 2
    ensures 2 * F <= F * F / rest <= F * F
  {
    var q := F * F / rest;
    if q < 2 * F {
      NextMultiple(q, 2 * F, rest);
    }
    if q > F * F {
      NextMultiple(F * F, q, rest);
    }
  }

  /** No whole distance has an inverse of fifteen exactly: 6666 gives more and 6667 less. */
  lemma InverseSkipsFifteen(rest: nat)
    requires 1 <= rest <= F / 2
    ensures F * F / rest != 15 * F
  {
    var q := F * F / rest;
    assert q * rest <= F * F < q * rest + rest;
  }

  /** The fraction stays within 15; one above would need an inverse of fifteen exactly. */
  lemma FracRange(rest: nat, upper: bool)
    requires rest <= F / 2 && (upper ==> rest >= 1)
    ensures FracOf(rest, upper) <= 15
    ensures FracOf(rest, upper) == 0 <==> rest == 0
    ensures FracOf(rest, upper) == 1 ==> upper
  {
    if rest > 0 {
      InverseBounds(rest);
      InverseSkipsFifteen(rest);
      FracOfInverse(F * F / rest, rest, upper);
    }
  }

  lemma FracOfInverse(q: nat, rest: nat, upper: bool)
    requires rest > 0 && q == F * F / rest && q >= 2 * F && q != 15 * F
    ensures FracOf(rest, upper) == if q > 15 * F then (if upper then 1 else 15) else q / F + (if upper then 1 else 0)
    ensures q <= 15 * F ==> 2 <= q / F <= 14
  {
  }

  /** A candidate that rounds down from the whole number below is never an underestimate: what the
      fraction adds is at least the rest it stands for. */
  lemma FractionCovers(rest: nat)
    requires 1 <= rest < F / 2
    ensures F / FracOf(rest, false) >= rest
  {
    var q := F * F / rest;
    var frac := FracOf(rest, false);
    InverseBounds(rest);
    InverseSkipsFifteen(rest);
    FracOfInverse(q, rest, false);
    assert frac * F <= q;
    assert q * rest <= F * F;
    assert frac * rest <= F by {
      if frac * F < q {
        NextMultiple(frac * F, q, rest);
      }
      assert (frac * F) * rest == (frac * rest) * F;
    }
    QuotientAtLeast(F, rest, frac);
  }

  lemma QuotientAtLeast(n: nat, q: nat, d: nat)
    requires d > 0 && q * d <= n
    ensures n / d >= q
  {
    if n / d < q {
      NextMultiple(n / d, q, d);
    }
  }

  /** Every candidate's count is below its unit and its fraction within four bits, and one that ends
      with polarity zero approximates from above or exactly. */
  lemma CandidateBounds(ratio: nat, line: nat, tu: nat)
    requires 1 <= ratio < F && tu > 0
    ensures var c := CandidateOf(ratio, line, tu);
            && c.count <= tu - 1 && c.frac <= 15
            && (c.polarity ==> c.frac >= 2)
            && (!c.polarity ==> c.approx >= c.wanted)
            && (c.frac == 0 ==> c.count >= 1 && c.approx == c.wanted)
  {
    hide FracOf;
    var wanted := Times(ratio, tu);
    WantedBounds(ratio, tu);
    var rest := if Upper(wanted) then F - wanted % F else wanted % F;
    FracRange(rest, Upper(wanted));
    if !Upper(wanted) && rest > 0 {
      FractionCovers(rest);
    }
  }

  /** For any mode that fits with a ratio of at least one unit, the unit is 32 to 64, the fraction 1 to
      15 and the watermark at most 30. The count is at most 63 exactly when some candidate was kept;
      with none kept it wraps. */
  lemma ParamsInRange(ratio: nat, line: nat, xres: nat, lanes: nat, b: Choice)
    requires 1 <= ratio < F && IsLanes(lanes) && Chosen(ratio, line, 32, b)
    ensures var p := ParamsOf(ratio, xres, lanes, b);
            && 32 <= p.tu <= 64 && 1 <= p.frac <= 15 && p.watermark <= 30
            && (p.count <= 63 <==> b.Kept?)
            && (b == None ==> p.count == WORD - 1)
            && (b.Kept? ==> !(b.c.polarity && b.c.frac == 0) && (b.c.Over() || b.c.err == 0))
  {
    hide CandidateOf, Watermark, PerLine;
    if b.Kept? {
      CandidateBounds(ratio, line, b.c.tu);
    }
  }

  /** The formula for an upper remainder gives less than one whole symbol, whatever the count: from one
      symbol on it underestimates by more than the unit. */
  lemma UpperUnderestimates(count: nat, frac: nat, wanted: nat)
    requires 1 <= count <= 63 && 2 <= frac <= 15 && wanted >= count * F + F / 2
    ensures Approx(count * F, frac, true) + 64 <= wanted
  {
    var n, d: nat := count * F + (frac * F - F) * F, frac * F;
    var x := n / d;
    assert x * d <= n;
    if x > F - 1000 {
      NextMultiple(F - 1000, x, d);
    }
  }

  /** So, for a line of any length, a candidate of one symbol or more is worth keeping exactly when it
      does not end with polarity one and its error is below the first bound; polarity one is only ever
      kept with a count of zero. */
  lemma EligibleIff(ratio: nat, line: nat, tu: nat)
    requires 1 <= ratio < F && 32 <= tu <= 64 && line >= 1
    requires CandidateOf(ratio, line, tu).count >= 1
    ensures var c := CandidateOf(ratio, line, tu);
            Eligible(c) <==> !c.polarity && c.err < NO_ERROR_YET
  {
    hide FracOf, Approx;
    var c := CandidateOf(ratio, line, tu);
    CandidateBounds(ratio, line, tu);
    if c.polarity {
      UpperUnderestimates(c.count, c.frac, c.wanted);
      QuotientAtLeast(Gap(c.wanted, c.approx), 1, tu);
      NextMultiple(0, line, Gap(c.wanted, c.approx) / tu);
    }
    if c.approx == c.wanted {
      assert Gap(c.wanted, c.approx) / tu == 0;
    }
  }

  /** The error of a unit over a line. */
  function ErrorFor(ratio: nat, line: nat, tu: nat): nat
    requires tu > 0
  {
    Times(line, Quotient(Gap(Times(ratio, tu), ApproxFor(Times(ratio, tu))), tu))
  }

  /** A unit worth keeping: its error is below the first bound, and its remainder is in the lower half or so
      near the top that the whole number above stands for it. In the upper half otherwise, only a unit that
      carries less than one symbol can still be. */
  predicate Worth(ratio: nat, line: nat, tu: nat)
    requires tu > 0
  {
    var wanted := Times(ratio, tu);
    && ErrorFor(ratio, line, tu) < NO_ERROR_YET
    && (PolarityFor(wanted) ==> wanted < F && (wanted < ApproxFor(wanted) || ErrorFor(ratio, line, tu) == 0))
  }

  /** A candidate is kept, and the count stays within 63, exactly when some unit is worth it. */
  lemma KeptIff(ratio: nat, line: nat, xres: nat, lanes: nat, b: Choice)
    requires 1 <= ratio < F && line >= 1 && IsLanes(lanes) && Chosen(ratio, line, 32, b)
    ensures b.Kept? <==> exists tu :: 32 <= tu <= 64 && Worth(ratio, line, tu)
    ensures ParamsOf(ratio, xres, lanes, b).count <= 63 <==> exists tu :: 32 <= tu <= 64 && Worth(ratio, line, tu)
  {
    hide ParamsOf, CandidateOf, Worth;
    ParamsInRange(ratio, line, xres, lanes, b);
    forall tu | 32 <= tu <= 64
      ensures Eligible(CandidateOf(ratio, line, tu)) <==> Worth(ratio, line, tu)
    {
      WorthIsEligible(ratio, line, tu);
    }
    if b.Kept? {
      assert Worth(ratio, line, b.c.tu);
    }
  }

  lemma WorthIsEligible(ratio: nat, line: nat, tu: nat)
    requires 1 <= ratio < F && line >= 1 && 32 <= tu <= 64
    ensures Eligible(CandidateOf(ratio, line, tu)) <==> Worth(ratio, line, tu)
  {
    hide FracFor, PolarityFor, ApproxFor;
    CandidateBounds(ratio, line, tu);
    if Times(ratio, tu) / F >= 1 {
      EligibleIff(ratio, line, tu);
    } else {
      assert Times(line, 0) == 0;
    }
  }

  /** From a thirty-second of the link on, every unit carries a symbol and only the lower half counts. */
  lemma WorthFromOneSymbol(ratio: nat, line: nat, tu: nat)
    requires F / 32 <= ratio && 32 <= tu
    ensures Worth(ratio, line, tu) <==> !PolarityFor(Times(ratio, tu)) && ErrorFor(ratio, line, tu) < NO_ERROR_YET
  {
    hide PolarityFor, ErrorFor;
    assert ratio * tu >= 3125 * 32 by {
      assert (ratio - 3125) * tu >= 0 && 3125 * tu >= 3125 * 32;
    }
  }

  /** A unit that is exact for the console's mode, by the lanes times the rate. */
  function ScreenUnit(width: nat): (nat, nat) {
    if width == 10 then (82500, 56)
    else if width == 12 then (68750, 64)
    else if width == 20 then (41250, 56)
    else if width == 24 then (34375, 64)
    else if width == 40 then (20625, 64)
    else (10312, 40)
  }

  lemma ScreenRatio(lanes: nat, bw: nat)
    requires IsLanes(lanes) && IsRate(bw)
    ensures Fits(SCREEN, lanes, bw) <==> lanes * bw >= 10
    ensures Fits(SCREEN, lanes, bw) ==> Ratio(SCREEN, lanes, bw) == ScreenUnit(lanes * bw).0
  {
    var width := lanes * bw;
    assert width in {6, 10, 12, 20, 24, 40, 80};
    assert LinkRate(bw) * lanes == 27000000 * width;
    assert SCREEN.pclkKhz * 1000 * BPP * F / 8 == 22275000000000;
  }

  lemma ScreenUnitIsExact(width: nat, line: nat)
    requires width in {10, 12, 20, 24, 40, 80}
    ensures CandidateOf(ScreenUnit(width).0, line, ScreenUnit(width).1).err == 0
  {
    hide ApproxFor, FracFor, PolarityFor;
    var (ratio, tu) := ScreenUnit(width);
    ScreenGap(Times(ratio, tu));
  }

  lemma ScreenGap(wanted: nat)
    requires wanted in {412480, 4400000, 2200000, 4620000, 2310000, 1320000}
    ensures Gap(wanted, ApproxFor(wanted)) <= 20
  {
    if wanted == 412480 {
      assert FracFor(wanted) == 8;
      hide FracFor;
    } else if wanted == 4400000 || wanted == 2200000 {
      assert FracFor(wanted) == 0;
      hide FracFor;
    } else {
      assert FracFor(wanted) == if wanted == 2310000 then 10 else 5;
      hide FracFor;
    }
  }

  /** The console's own mode is always kept, on every link it fits: some unit is exact. */
  lemma ScreenModeIsKept(lanes: nat, bw: nat, b: Choice)
    requires IsLanes(lanes) && IsRate(bw) && Fits(SCREEN, lanes, bw)
    requires Chosen(Ratio(SCREEN, lanes, bw), LineSymbols(SCREEN, bw), 32, b)
    ensures Ratio(SCREEN, lanes, bw) >= 1 && b.Kept? && b.c.err == 0
  {
    hide CandidateOf, Ratio, LineSymbols;
    ScreenRatio(lanes, bw);
    assert lanes * bw in {10, 12, 20, 24, 40, 80};
    var (ratio, tu) := ScreenUnit(lanes * bw);
    ScreenUnitIsExact(lanes * bw, LineSymbols(SCREEN, bw));
    assert Eligible(CandidateOf(ratio, LineSymbols(SCREEN, bw), tu));
  }

  /** An error that is not zero. */
  lemma Misses(ratio: nat, line: nat, j: nat)
    requires line >= 1 && j > 0 && Gap(Times(ratio, j), ApproxFor(Times(ratio, j))) >= j
    ensures CandidateOf(ratio, line, j).err != 0
  {
    hide ApproxFor, FracFor, PolarityFor;
    var gap := Gap(Times(ratio, j), ApproxFor(Times(ratio, j)));
    QuotientAtLeast(gap, 1, j);
    NextMultiple(0, line, gap / j);
  }

  /** A remainder in the lower half: the fraction is the whole inverse, at most 15. */
  lemma LowerMisses(ratio: nat, line: nat, j: nat, count: nat, rest: nat, frac: nat)
    requires line >= 1 && 32 <= j <= 64 && ratio * j == count * F + rest && 1 <= rest < F / 2
    requires (2 <= frac <= 14 && frac * rest <= F < frac * rest + rest) || (frac == 15 && 15 * rest < F)
    requires F / frac >= rest + j
    ensures CandidateOf(ratio, line, j).err != 0
  {
    hide CandidateOf;
    var wanted := Times(ratio, j);
    DivModIs(wanted, count, rest, F);
    InverseIs(rest, frac);
    assert FracFor(wanted) == frac && !PolarityFor(wanted);
    hide FracFor, PolarityFor;
    Misses(ratio, line, j);
  }

  lemma InverseIs(rest: nat, frac: nat)
    requires 1 <= rest < F / 2
    requires (2 <= frac <= 14 && frac * rest <= F < frac * rest + rest) || (frac == 15 && 15 * rest < F)
    ensures FracOf(rest, false) == frac
  {
    var q := F * F / rest;
    InverseBounds(rest);
    InverseSkipsFifteen(rest);
    FracOfInverse(q, rest, false);
    if frac == 15 {
      QuotientAtLeast(F * F, 15 * F, rest);
    } else {
      assert (frac * F) * rest == (frac * rest) * F && (frac * F + F) * rest == (frac * rest + rest) * F;
      QuotientAtLeast(F * F, frac * F, rest);
      QuotientBelow(F * F, frac * F + F, rest);
    }
  }

  /** A remainder in the upper half. */
  lemma UpperMisses(ratio: nat, line: nat, j: nat, count: nat, rest: nat)
    requires line >= 1 && 32 <= j <= 64 && ratio * j == count * F + rest && F / 2 <= rest < F
    requires 1 <= count <= 63 && 15 * (F - rest) > F
    ensures CandidateOf(ratio, line, j).err != 0
  {
    hide CandidateOf;
    var wanted := Times(ratio, j);
    DivModIs(wanted, count, rest, F);
    var d, q := F - rest, F * F / (F - rest);
    InverseBounds(d);
    InverseSkipsFifteen(d);
    QuotientBelow(F * F, 15 * F, d);
    FracRange(d, true);
    FracOfInverse(q, d, true);
    assert 2 <= FracFor(wanted) <= 15 && PolarityFor(wanted);
    hide FracFor, PolarityFor;
    UpperUnderestimates(count, FracFor(wanted), wanted);
    Misses(ratio, line, j);
  }

  /** A remainder so near the top that the whole number above stands for it. */
  lemma TopMisses(ratio: nat, line: nat, j: nat, count: nat, rest: nat)
    requires line >= 1 && 32 <= j <= 64 && ratio * j == count * F + rest && F / 2 <= rest < F
    requires 15 * (F - rest) < F && F - rest >= j
    ensures CandidateOf(ratio, line, j).err != 0
  {
    hide CandidateOf;
    var wanted := Times(ratio, j);
    DivModIs(wanted, count, rest, F);
    var d, q := F - rest, F * F / (F - rest);
    InverseBounds(d);
    InverseSkipsFifteen(d);
    QuotientAtLeast(F * F, 15 * F, d);
    FracOfInverse(q, d, true);
    assert FracFor(wanted) == 1 && !PolarityFor(wanted);
    hide FracFor, PolarityFor;
    Misses(ratio, line, j);
  }

  lemma NoneAbove10(line: nat, j: nat)
    requires line >= 1 && 56 < j <= 64
    ensures CandidateOf(82500, line, j).err != 0
  {
    hide Approx, FracOf, CandidateOf;
    if j == 57 {
      LowerMisses(82500, line, j, 47, 2500, 15);
    } else if j == 58 {
      UpperMisses(82500, line, j, 47, 85000);
    } else if j == 59 {
      UpperMisses(82500, line, j, 48, 67500);
    } else if j == 60 {
      UpperMisses(82500, line, j, 49, 50000);
    } else if j == 61 {
      LowerMisses(82500, line, j, 50, 32500, 3);
    } else if j == 62 {
      LowerMisses(82500, line, j, 51, 15000, 6);
    } else if j == 63 {
      TopMisses(82500, line, j, 51, 97500);
    } else {
      UpperMisses(82500, line, j, 52, 80000);
    }
  }

  lemma NoneAbove20(line: nat, j: nat)
    requires line >= 1 && 56 < j <= 64
    ensures CandidateOf(41250, line, j).err != 0
  {
    hide Approx, FracOf, CandidateOf;
    if j == 57 {
      UpperMisses(41250, line, j, 23, 51250);
    } else if j == 58 {
      UpperMisses(41250, line, j, 23, 92500);
    } else if j == 59 {
      LowerMisses(41250, line, j, 24, 33750, 2);
    } else if j == 60 {
      UpperMisses(41250, line, j, 24, 75000);
    } else if j == 61 {
      LowerMisses(41250, line, j, 25, 16250, 6);
    } else if j == 62 {
      UpperMisses(41250, line, j, 25, 57500);
    } else if j == 63 {
      TopMisses(41250, line, j, 25, 98750);
    } else {
      LowerMisses(41250, line, j, 26, 40000, 2);
    }
  }

  lemma NoneAbove80(line: nat, j: nat)
    requires line >= 1 && 40 < j <= 64
    ensures CandidateOf(10312, line, j).err != 0
  {
    hide Approx, FracOf, CandidateOf;
    if j == 41 {
      LowerMisses(10312, line, j, 4, 22792, 4);
    } else if j == 42 {
      LowerMisses(10312, line, j, 4, 33104, 3);
    } else if j == 43 {
      LowerMisses(10312, line, j, 4, 43416, 2);
    } else if j == 44 {
      UpperMisses(10312, line, j, 4, 53728);
    } else if j == 45 {
      UpperMisses(10312, line, j, 4, 64040);
    } else if j == 46 {
      UpperMisses(10312, line, j, 4, 74352);
    } else if j == 47 {
      UpperMisses(10312, line, j, 4, 84664);
    } else if j == 48 {
      TopMisses(10312, line, j, 4, 94976);
    } else if j == 49 {
      LowerMisses(10312, line, j, 5, 5288, 15);
    } else if j == 50 {
      LowerMisses(10312, line, j, 5, 15600, 6);
    } else if j == 51 {
      LowerMisses(10312, line, j, 5, 25912, 3);
    } else if j == 52 {
      LowerMisses(10312, line, j, 5, 36224, 2);
    } else if j == 53 {
      LowerMisses(10312, line, j, 5, 46536, 2);
    } else if j == 54 {
      UpperMisses(10312, line, j, 5, 56848);
    } else if j == 55 {
      UpperMisses(10312, line, j, 5, 67160);
    } else if j == 56 {
      UpperMisses(10312, line, j, 5, 77472);
    } else if j == 57 {
      UpperMisses(10312, line, j, 5, 87784);
    } else if j == 58 {
      TopMisses(10312, line, j, 5, 98096);
    } else if j == 59 {
      LowerMisses(10312, line, j, 6, 8408, 11);
    } else if j == 60 {
      LowerMisses(10312, line, j, 6, 18720, 5);
    } else if j == 61 {
      LowerMisses(10312, line, j, 6, 29032, 3);
    } else if j == 62 {
      LowerMisses(10312, line, j, 6, 39344, 2);
    } else if j == 63 {
      LowerMisses(10312, line, j, 6, 49656, 2);
    } else {
      UpperMisses(10312, line, j, 6, 59968);
    }
  }

  /** So the parameters of every link the console's mode fits: the unit, the count, the fraction, the polarity
      and the watermark, by the lanes times the rate. */
  lemma ScreenParams(lanes: nat, bw: nat, b: Choice)
    requires IsLanes(lanes) && IsRate(bw) && Fits(SCREEN, lanes, bw)
    requires Chosen(Ratio(SCREEN, lanes, bw), LineSymbols(SCREEN, bw), 32, b)
    ensures Ratio(SCREEN, lanes, bw) <= F
    ensures ParamsOf(Ratio(SCREEN, lanes, bw), 1280, lanes, b)
         == if lanes * bw == 10 then Params(56, 46, 5, false, 13)
            else if lanes * bw == 12 then Params(64, 43, 1, false, 18)
            else if lanes * bw == 20 then Params(56, 23, 10, false, 18)
            else if lanes * bw == 24 then Params(64, 21, 1, false, 19)
            else if lanes * bw == 40 then Params(64, 13, 5, false, 15)
            else Params(40, 4, 8, false, 8)
  {
    hide CandidateOf, Ratio, LineSymbols, ParamsOf, ScreenUnit;
    ScreenRatio(lanes, bw);
    RatioBelowOne(SCREEN, lanes, bw);
    var width, line := lanes * bw, LineSymbols(SCREEN, bw);
    assert width in {10, 12, 20, 24, 40, 80};
    ScreenModeIsKept(lanes, bw, b);
    ScreenUnitIsExact(width, line);
    ScreenLine(bw);
    ScreenUnitKept(width, line, b);
    UnitParams(width, line, lanes, b);
  }

  lemma ScreenLine(bw: nat)
    requires IsRate(bw)
    ensures LineSymbols(SCREEN, bw) >= 1
  {
    assert SCREEN.pclkKhz * 1000 == 74250000 && LinkRate(bw) * SCREEN.xres == 34560000000 * bw;
    assert 34560000000 * 6 / 74250000 == 2792 && 34560000000 * 10 / 74250000 == 4654
           && 34560000000 * 20 / 74250000 == 9309;
  }

  /** The exact unit found first is the largest one. */
  lemma ScreenUnitKept(width: nat, line: nat, b: Choice)
    requires width in {10, 12, 20, 24, 40, 80} && line >= 1
    requires Chosen(ScreenUnit(width).0, line, 32, b) && b.Kept? && b.c.err == 0
    requires CandidateOf(ScreenUnit(width).0, line, ScreenUnit(width).1).err == 0
    ensures b.c == CandidateOf(ScreenUnit(width).0, line, ScreenUnit(width).1)
  {
    hide CandidateOf;
    var (ratio, tu) := ScreenUnit(width);
    if b.c.tu > tu {
      if width == 10 {
        NoneAbove10(line, b.c.tu);
      } else if width == 20 {
        NoneAbove20(line, b.c.tu);
      } else {
        NoneAbove80(line, b.c.tu);
      }
    }
  }

  lemma UnitParams(width: nat, line: nat, lanes: nat, b: Choice)
    requires width in {10, 12, 20, 24, 40, 80} && IsLanes(lanes)
    requires b.Kept? && b.c == CandidateOf(ScreenUnit(width).0, line, ScreenUnit(width).1) && b.c.err == 0
    ensures ParamsOf(ScreenUnit(width).0, 1280, lanes, b)
         == if width == 10 then Params(56, 46, 5, false, 13)
            else if width == 12 then Params(64, 43, 1, false, 18)
            else if width == 20 then Params(56, 23, 10, false, 18)
            else if width == 24 then Params(64, 21, 1, false, 19)
            else if width == 40 then Params(64, 13, 5, false, 15)
            else Params(40, 4, 8, false, 8)
  {
    hide ApproxFor, PerLine;
    LineHolds(lanes);
    UnitFraction(width);
    hide FracFor, PolarityFor;
  }

  lemma LineHolds(lanes: nat)
    requires IsLanes(lanes)
    ensures PerLine(1280, lanes) >= 30
  {
  }

  lemma UnitFraction(width: nat)
    requires width in {10, 12, 20, 24, 40, 80}
    ensures var wanted := Times(ScreenUnit(width).0, ScreenUnit(width).1);
            && !PolarityFor(wanted)
            && FracFor(wanted) == if width == 10 || width == 40 then 5 else if width == 20 then 10
                                  else if width == 80 then 8 else 0
  {
    hide FracOf;
    if width == 80 {
      InverseIs(12480, 8);
      assert 412480 % F == 12480;
    } else if width == 20 {
      InverseIs(10000, 10);
      assert 2310000 % F == 10000;
    } else if width == 10 || width == 40 {
      InverseIs(20000, 5);
      assert 4620000 % F == 20000 && 1320000 % F == 20000;
    } else {
      NoRestNoFraction();
      assert 4400000 % F == 0 && 2200000 % F == 0;
    }
  }

  lemma NoRestNoFraction()
    ensures FracOf(0, false) == 0
  {
  }

  /** Not every mode is: 53.595 MHz on one lane at the lowest rate takes 99.25 percent of the link, and
      every unit leaves an upper remainder. */
  lemma SomeModeKeepsNothing(b: Choice)
    requires Chosen(Ratio(Mode(53595, 1280), 1, 6), LineSymbols(Mode(53595, 1280), 6), 32, b)
    ensures Fits(Mode(53595, 1280), 1, 6) && b == None
  {
    hide CandidateOf, Ratio, LineSymbols, Fits;
    FullLinkRatio();
    if b.Kept? {
      var tu := b.c.tu;
      FullLinkIsUpper(tu);
      EligibleIff(99250, 3869, tu);
    }
  }

  lemma FullLinkRatio()
    ensures var m := Mode(53595, 1280);
            Fits(m, 1, 6) && Ratio(m, 1, 6) == 99250 && LineSymbols(m, 6) == 3869
  {
    assert 162000000 * 1280 / 53595000 == 3869;
  }

  lemma FullLinkIsUpper(tu: nat)
    requires 32 <= tu <= 64
    ensures CandidateOf(99250, 3869, tu).count >= 1 && CandidateOf(99250, 3869, tu).polarity
  {
    var rest := 750 * tu;
    assert 99250 * tu == (tu - 1) * F + (F - rest);
    DivModIs(99250 * tu, tu - 1, F - rest, F);
    assert F * F / rest <= 15 * F by {
      QuotientBelow(F * F, 15 * F, rest);
    }
    InverseBounds(rest);
  }

  // ------------------------------------------------------------- the loop

  lemma ChosenNext(ratio: nat, line: nat, low: nat, b: Choice)
    requires 1 <= low <= 64 && Chosen(ratio, line, low + 1, b) && !(b.Kept? && b.c.err == 0)
    ensures var c := CandidateOf(ratio, line, low);
            Chosen(ratio, line, low, if c.err == 0 || (c.Over() && c.err < Result(b).err) then Kept(c) else b)
  {
    UnitOf(ratio, line, low);
    hide CandidateOf;
  }

  lemma ChosenDone(ratio: nat, line: nat, low: nat, b: Choice)
    requires 32 <= low && Chosen(ratio, line, low, b) && b.Kept? && b.c.err == 0
    ensures Chosen(ratio, line, 32, b)
  {
    hide CandidateOf;
  }

  /** The fraction of one unit size, worked out as the loop does. */
  method ExamineRest(wanted: nat) returns (frac: nat, polarity: bool)
    ensures frac == FracFor(wanted) && polarity == PolarityFor(wanted)
  {
    var rest := wanted % F;
    frac := 0;
    polarity := rest >= F / 2;
    if polarity {
      rest := F - rest;
    }
    if rest != 0 {
      rest := F * F / rest;
      if rest > 15 * F {
        frac := if polarity then 1 else 15;
      } else {
        frac := if polarity then rest / F + 1 else rest / F;
      }
    }
    if frac == 1 {
      polarity := false;
    }
  }

  /** One unit size worked out as the loop does. */
  method Examine(ratio: nat, line: nat, i: nat) returns (count: nat, frac: nat, polarity: bool, neg: bool, err: nat)
    requires i > 0
    ensures var c := CandidateOf(ratio, line, i);
            count == c.count && frac == c.frac && polarity == c.polarity && neg == c.Over() && err == c.err
  {
    hide FracFor, PolarityFor, Approx;
    var wanted := Times(ratio, i);
    count := wanted / F;
    var whole := count * F;
    frac, polarity := ExamineRest(wanted);
    var approx := Approx(whole, frac, polarity);
    assert approx == ApproxFor(wanted);
    neg := wanted < approx;
    if neg {
      err := Times(line, Quotient(approx - wanted, i));
    } else {
      err := Times(line, Quotient(wanted - approx, i));
    }
  }

  lemma NothingExamined(ratio: nat, line: nat)
    ensures Chosen(ratio, line, 65, None)
  {
  }

  /** The FIFO watermark, held to 30 and to a line's bytes. */
  method SetWatermark(ratio: nat, xres: nat, lanes: nat, tu: nat, err: nat) returns (watermark: nat)
    requires ratio <= F && lanes > 0
    ensures watermark == Min(Min(Watermark(ratio, tu, err), 30), PerLine(xres, lanes))
  {
    hide Watermark, PerLine;
    watermark := Watermark(ratio, tu, err);
    if watermark > 30 {
      watermark := 30;
    }
    var perLine := PerLine(xres, lanes);
    if watermark > perLine {
      watermark := perLine;
    }
  }

  /** `_link_calc`: the search from the largest unit down, and the fields it sets. */
  method LinkCalc(lanes: nat, bw: nat, m: Mode) returns (code: nat, p: Params, ghost b: Choice)
    requires IsLanes(lanes) && IsRate(bw) && 0 < m.pclkKhz < WORD && m.xres < WORD
    ensures code == if Fits(m, lanes, bw) then 0 else 1
    ensures code == 0 ==> Ratio(m, lanes, bw) < F
    ensures code == 0 ==> Chosen(Ratio(m, lanes, bw), LineSymbols(m, bw), 32, b)
    ensures code == 0 ==> p == ParamsOf(Ratio(m, lanes, bw), m.xres, lanes, b)
    ensures code == 0 && Ratio(m, lanes, bw) >= 1 ==>
              32 <= p.tu <= 64 && 1 <= p.frac <= 15 && p.watermark <= 30 && (p.count <= 63 <==> b.Kept?)
  {
    hide Ratio, LineSymbols, CandidateOf, Fits, Chosen, Watermark, PerLine;
    p := Params(0, 0, 0, false, 0);
    b := None;
    if !Fits(m, lanes, bw) {
      return 1, p, b;
    }
    RatioBelowOne(m, lanes, bw);
    var line := LineSymbols(m, bw);
    var ratio := Ratio(m, lanes, bw);
    var lowest, tu, count, frac, polarity := NO_ERROR_YET, 64, 0, 0, false;
    NothingExamined(ratio, line);
    var i := 64;
    while i >= 32
      invariant 31 <= i <= 64
      invariant Chosen(ratio, line, i + 1, b) && !(b.Kept? && b.c.err == 0)
      invariant var r := Result(b);
                tu == r.tu && count == r.count && frac == r.frac && polarity == r.polarity && lowest == r.err
    {
      var activeCount, activeFrac, activePolarity, neg, err := Examine(ratio, line, i);
      ChosenNext(ratio, line, i, b);
      UnitOf(ratio, line, i);
      if (neg && lowest > err) || err == 0 {
        lowest, tu, count, frac, polarity := err, i, activeCount, activeFrac, activePolarity;
        b := Kept(CandidateOf(ratio, line, i));
        if err == 0 {
          ChosenDone(ratio, line, i, b);
          break;
        }
      }
      i := i - 1;
    }
    var watermark := SetWatermark(ratio, m.xres, lanes, tu, lowest);
    if frac == 0 {
      p := Params(tu, if polarity then count else (count - 1) % WORD, 1, false, watermark);
    } else {
      p := Params(tu, count, frac, polarity, watermark);
    }
    if ratio >= 1 {
      ParamsInRange(ratio, line, m.xres, lanes, b);
    }
    code := 0;
  }

  // ------------------------------------------------------------ the registers

  /** CONFIG0 as `_sor_set_dp_mode` leaves it: the old word, its four fields and three constant bits. */
  function Config0(old0: bv32, watermark: bv32, count: bv32, frac: bv32, polarity: bool): bv32 {
    (old0 & !(0x3F | 0x7F00 | 0xF_0000 | 0x100_0000))
    | watermark | (count << 8) | (frac << 16) | (if polarity then 0x100_0000 else 0)
    | 0x400_0000 | 0x8000_0000 | 0x1000_0000
  }

  /** LINKCTL0: the unit size, the enable bit and the framing. */
  function LinkCtl0(old0: bv32, tu: bv32, enhanced: bool): bv32 {
    (old0 & !0x1FC) | 1 | (tu << 2) | (if enhanced then 0x4000 else 0)
  }

  lemma WordsPack(old0: bv32, watermark: bv32, count: bv32, frac: bv32, polarity: bool)
    requires watermark <= 30 && count <= 63 && frac <= 15
    ensures var v := Config0(old0, watermark, count, frac, polarity);
            && v & 0x3F == watermark && (v >> 8) & 0x7F == count && (v >> 16) & 0xF == frac
            && (v & 0x100_0000 != 0 <==> polarity)
            && v & 0x9400_0000 == 0x9400_0000
            && v & 0x6AF0_80C0 == old0 & 0x6AF0_80C0
  {
  }

  lemma UnitPacks(old0: bv32, tu: bv32, enhanced: bool)
    requires 32 <= tu <= 64
    ensures var v := LinkCtl0(old0, tu, enhanced);
            && (v >> 2) & 0x7F == tu && v & 1 == 1 && (enhanced ==> v & 0x4000 != 0)
            && v & 0xFFFF_BE02 == old0 & 0xFFFF_BE02 && (!enhanced ==> v & 0x4000 == old0 & 0x4000)
  {
  }

  lemma NarrowWatermark(n: nat)
    requires n <= 30
    ensures n as bv32 <= 30
  {
  }

  lemma NarrowCount(n: nat)
    requires n <= 63
    ensures n as bv32 <= 63
  {
  }

  lemma NarrowFrac(n: nat)
    requires n <= 15
    ensures n as bv32 <= 15
  {
  }

  lemma NarrowUnit(n: nat)
    requires 32 <= n <= 64
    ensures 32 <= n as bv32 <= 64
  {
  }

  /** For every parameter set in range the packed fields do not overlap: each reads back what was
      computed, the constant bits are set and every other bit is the old one. */
  lemma RegistersReadBack(old0: bv32, ctl0: bv32, p: Params, enhanced: bool)
    requires 32 <= p.tu <= 64 && 1 <= p.frac <= 15 && p.watermark <= 30 && p.count <= 63
    ensures var v := Config0(old0, p.watermark as bv32, p.count as bv32, p.frac as bv32, p.polarity);
            && v & 0x3F == p.watermark as bv32 && (v >> 8) & 0x7F == p.count as bv32
            && (v >> 16) & 0xF == p.frac as bv32 && (v & 0x100_0000 != 0 <==> p.polarity)
            && v & 0x9400_0000 == 0x9400_0000 && v & 0x6AF0_80C0 == old0 & 0x6AF0_80C0
    ensures var v := LinkCtl0(ctl0, p.tu as bv32, enhanced);
            && (v >> 2) & 0x7F == p.tu as bv32 && v & 1 == 1 && (enhanced ==> v & 0x4000 != 0)
            && v & 0xFFFF_BE02 == ctl0 & 0xFFFF_BE02 && (!enhanced ==> v & 0x4000 == ctl0 & 0x4000)
  {
    hide Config0, LinkCtl0;
    NarrowWatermark(p.watermark);
    NarrowCount(p.count);
    NarrowFrac(p.frac);
    NarrowUnit(p.tu);
    WordsPack(old0, p.watermark as bv32, p.count as bv32, p.frac as bv32, p.polarity);
    UnitPacks(ctl0, p.tu as bv32, enhanced);
  }

  /** With no candidate kept the wrapped count runs over every field above it: whatever fraction and
      polarity were meant, ones are written. */
  lemma WrappedCountOverruns(old0: bv32, watermark: bv32, frac: bv32, polarity: bool)
    ensures var v := Config0(old0, watermark, 4294967295 as bv32, frac, polarity);
            (v >> 16) & 0xF == 15 && v & 0x100_0000 != 0 && (v >> 8) & 0x7F == 0x7F
  {
    hide Config0;
    assert 4294967295 as bv32 == 0xFFFF_FFFF;
    AllOnesOverrun(old0, watermark, frac, polarity);
  }

  lemma AllOnesOverrun(old0: bv32, watermark: bv32, frac: bv32, polarity: bool)
    ensures var v := Config0(old0, watermark, 0xFFFF_FFFF, frac, polarity);
            (v >> 16) & 0xF == 15 && v & 0x100_0000 != 0 && (v >> 8) & 0x7F == 0x7F
  {
  }
}
