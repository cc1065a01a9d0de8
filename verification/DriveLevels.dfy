/** The drive levels a DisplayPort lane is trained with (dpout.c): the register tables, the byte that
    reports them to the sink, and the levels the sink asks for. */
module DriveLevels {
  import opened Bits

  /** Voltage swing, pre-emphasis and post-cursor of one lane. */
  datatype Lane = Lane(vs: nat, pe: nat, pc: nat)

  /** What training keeps for every lane: within range, at or above the floor, and a swing and a
      pre-emphasis that are possible together. */
  predicate LaneOk(floor: nat, l: Lane) {
    floor <= l.vs <= 3 && l.vs + l.pe <= 3 && l.pc <= 3
  }

  /** Levels a transmitter can drive. */
  type Drivable = l: Lane | LaneOk(0, l) witness Lane(0, 0, 0)

  // -------------------------------------------------------------- the tables

  /** By post cursor and swing, one entry for every pre-emphasis that swing allows. */
  type Table = seq<seq<seq<Byte>>>

  const SWING: Table := [
    [[0x13, 0x19, 0x1e, 0x28], [0x1e, 0x25, 0x2d], [0x28, 0x32], [0x3c]],
    [[0x12, 0x17, 0x1b, 0x25], [0x1c, 0x23, 0x2a], [0x25, 0x2f], [0x39]],
    [[0x12, 0x16, 0x1a, 0x22], [0x1b, 0x20, 0x27], [0x24, 0x2d], [0x36]],
    [[0x11, 0x14, 0x17, 0x1f], [0x19, 0x1e, 0x24], [0x22, 0x2a], [0x32]]]

  const PRE_EMPHASIS: Table := [
    [[0x00, 0x08, 0x12, 0x24], [0x01, 0x0e, 0x1d], [0x01, 0x13], [0x00]],
    [[0x00, 0x08, 0x12, 0x24], [0x00, 0x0e, 0x1d], [0x00, 0x13], [0x00]],
    [[0x00, 0x08, 0x12, 0x24], [0x00, 0x0e, 0x1d], [0x00, 0x13], [0x00]],
    [[0x00, 0x08, 0x12, 0x24], [0x00, 0x0e, 0x1d], [0x00, 0x13], [0x00]]]

  const PULL_UP: Table := [
    [[0x20, 0x30, 0x40, 0x60], [0x30, 0x40, 0x60], [0x40, 0x60], [0x60]],
    [[0x20, 0x20, 0x30, 0x50], [0x30, 0x40, 0x50], [0x40, 0x50], [0x60]],
    [[0x20, 0x20, 0x30, 0x40], [0x30, 0x30, 0x40], [0x40, 0x50], [0x60]],
    [[0x20, 0x20, 0x20, 0x40], [0x30, 0x30, 0x40], [0x40, 0x40], [0x60]]]

  const POST_CURSOR: Table := [
    [[0x00, 0x00, 0x00, 0x00], [0x00, 0x00, 0x00], [0x00, 0x00], [0x00]],
    [[0x02, 0x02, 0x04, 0x05], [0x02, 0x04, 0x05], [0x04, 0x05], [0x05]],
    [[0x04, 0x05, 0x08, 0x0b], [0x05, 0x09, 0x0b], [0x08, 0x0a], [0x0b]],
    [[0x05, 0x09, 0x0b, 0x12], [0x09, 0x0d, 0x12], [0x0b, 0x0f], [0x12]]]

  /** An entry is there for a lane. */
  predicate Populated(t: Table, l: Lane) {
    l.pc < |t| && l.vs < |t[l.pc]| && l.pe < |t[l.pc][l.vs]|
  }

  predicate Triangular(t: Table) {
    |t| == 4 && (forall pc :: 0 <= pc < 4 ==> |t[pc]| == 4)
    && (forall pc, vs :: 0 <= pc < 4 && 0 <= vs < 4 ==> |t[pc][vs]| == 4 - vs)
  }

  lemma TriangularIs(t: Table)
    requires |t| == 4
    requires forall pc :: 0 <= pc < 4 ==>
               |t[pc]| == 4 && |t[pc][0]| == 4 && |t[pc][1]| == 3 && |t[pc][2]| == 2 && |t[pc][3]| == 1
    ensures Triangular(t)
  {
    forall pc, vs | 0 <= pc < 4 && 0 <= vs < 4
      ensures |t[pc][vs]| == 4 - vs
    {
      if vs == 0 {
      } else if vs == 1 {
      } else if vs == 2 {
      } else {
        assert vs == 3;
      }
    }
  }

  lemma TablesAreTriangular()
    ensures Triangular(SWING) && Triangular(PRE_EMPHASIS) && Triangular(PULL_UP) && Triangular(POST_CURSOR)
  {
    TriangularIs(SWING);
    TriangularIs(PRE_EMPHASIS);
    TriangularIs(PULL_UP);
    TriangularIs(POST_CURSOR);
  }

  /** The lookups hit an entry exactly for the levels training keeps. */
  lemma PopulatedIff(l: Lane)
    ensures Populated(SWING, l) <==> LaneOk(0, l)
    ensures Populated(PRE_EMPHASIS, l) <==> LaneOk(0, l)
    ensures Populated(PULL_UP, l) <==> LaneOk(0, l)
    ensures Populated(POST_CURSOR, l) <==> LaneOk(0, l)
  {
    TablesAreTriangular();
    hide SWING, PRE_EMPHASIS, PULL_UP, POST_CURSOR;
  }

  function Entry(t: Table, l: Lane): Byte
    requires Populated(t, l)
  {
    t[l.pc][l.vs][l.pe]
  }

  /** Mariko's own entries for the full swing, but for the last post cursor. */
  const MARIKO_FULL_SWING: seq<Byte> := [0x39, 0x37, 0x35]

  /** What one lane's registers get; the post cursor is written only with the third pattern. */
  datatype Regs = Regs(swing: Byte, pre: Byte, post: seq<Byte>)

  /** The chip, and whether the sink has the third training pattern. */
  datatype Kind = Kind(mariko: bool, tps3: bool)

  function RegsFor(l: Drivable, kind: Kind): Regs {
    PopulatedIff(l);
    Regs(if kind.mariko && l.vs == 3 && l.pe == 0 && l.pc < 3 then MARIKO_FULL_SWING[l.pc] else Entry(SWING, l),
         Entry(PRE_EMPHASIS, l), if kind.tps3 then [Entry(POST_CURSOR, l)] else [])
  }

  function PullUp(l: Drivable): Byte {
    PopulatedIff(l);
    Entry(PULL_UP, l)
  }

  /** Some entries: by post cursor, then swing, then pre-emphasis; Mariko's own only at the full swing. */
  lemma Entries()
    ensures RegsFor(Lane(0, 2, 1), Kind(false, true)) == Regs(0x1b, 0x12, [0x04])
    ensures RegsFor(Lane(2, 1, 0), Kind(true, true)) == Regs(0x32, 0x13, [0x00])
    ensures RegsFor(Lane(1, 0, 3), Kind(true, false)) == Regs(0x19, 0x00, [])
    ensures RegsFor(Lane(3, 0, 0), Kind(false, false)).swing == 0x3c
    ensures RegsFor(Lane(3, 0, 0), Kind(true, false)).swing == 0x39
    ensures RegsFor(Lane(3, 0, 1), Kind(true, false)).swing == 0x37
    ensures RegsFor(Lane(3, 0, 2), Kind(true, false)).swing == 0x35
    ensures RegsFor(Lane(3, 0, 3), Kind(true, false)).swing == 0x32
    ensures PullUp(Lane(0, 2, 1)) == 0x30 && PullUp(Lane(2, 1, 3)) == 0x40 && PullUp(Lane(3, 0, 0)) == 0x60
  {
    TablesAreTriangular();
  }

  // --------------------------------------------------- what the sink is told

  /** The byte of DPCD 103h on: the swing, the pre-emphasis, and a flag for each that is at its most. */
  function LaneSet(l: Drivable): nat {
    l.vs + (if l.vs >= 3 - l.pe then 4 else 0) + l.pe * 8 + (if l.pe >= 3 - l.vs then 32 else 0)
  }

  /** It reads back, and both flags are set exactly when swing and pre-emphasis make three. */
  lemma LaneSetReadsBack(l: Drivable)
    ensures var b := LaneSet(l);
            && b % 4 == l.vs && b / 8 % 4 == l.pe && b < 64
            && (b / 4 % 2 == 1 <==> l.vs + l.pe == 3)
            && (b / 32 == 1 <==> l.vs + l.pe == 3)
  {
  }

  // ----------------------------------------------------- what the sink asks

  /** Lane i's four bits of a pair of status or request bytes. */
  function Nibble(bs: seq<Byte>, i: nat): (n: nat)
    requires i / 2 < |bs|
    ensures n < 16
  {
    if i % 2 == 0 then bs[i / 2] % 16 else bs[i / 2] / 16
  }

  /** The levels for a request: the swing no lower than the floor, the pre-emphasis no more than it
      leaves. */
  function Granted(floor: nat, ask: nat, pc: nat): Lane
    requires floor <= 3 && ask < 16
  {
    var vs := if ask % 4 < floor then floor else ask % 4;
    Lane(vs, if vs + ask / 4 > 3 then 3 - vs else ask / 4, pc)
  }

  lemma GrantedIsOk(floor: nat, ask: nat, pc: nat)
    requires floor <= 3 && ask < 16 && pc <= 3
    ensures var l := Granted(floor, ask, pc);
            && LaneOk(floor, l)
            && (LaneOk(floor, Lane(ask % 4, ask / 4, pc)) ==> l == Lane(ask % 4, ask / 4, pc))
  {
  }

  function PostAsk(b: Byte, i: nat): (pc: nat)
    requires i < 4
    ensures pc <= 3
  {
    b / [1, 4, 16, 64][i] % 4
  }

  // ----------------------------------------------------- all lanes together

  /** One setting of the lanes: the levels, what the registers got, the pull-up, the bytes the sink was
      told, and the number of the exchange after it. */
  datatype Drive = Drive(floor: nat, lanes: seq<Drivable>, regs: seq<Regs>, pullUp: nat, told: seq<nat>, at: nat)

  function AllRegs(ls: seq<Drivable>, kind: Kind): (rs: seq<Regs>)
    ensures |rs| == |ls|
    decreases |ls|
  {
    if ls == [] then [] else AllRegs(ls[..|ls| - 1], kind) + [RegsFor(ls[|ls| - 1], kind)]
  }

  function AllTold(ls: seq<Drivable>): (bs: seq<nat>)
    ensures |bs| == |ls|
    decreases |ls|
  {
    if ls == [] then [] else AllTold(ls[..|ls| - 1]) + [LaneSet(ls[|ls| - 1])]
  }

  function MostPullUp(ls: seq<Drivable>): nat
    decreases |ls|
  {
    if ls == [] then 0
    else
      var before := MostPullUp(ls[..|ls| - 1]);
      if PullUp(ls[|ls| - 1]) as nat > before then PullUp(ls[|ls| - 1]) as nat else before
  }

  function DriveFor(floor: nat, ls: seq<Drivable>, kind: Kind, at: nat): Drive {
    Drive(floor, ls, AllRegs(ls, kind), MostPullUp(ls), AllTold(ls), at)
  }

  /** Lane by lane: each gets its own registers and its own byte, and no lane's pull-up is above the
      one that is set, which some lane has. */
  lemma {:induction false} DriveLaneByLane(floor: nat, ls: seq<Drivable>, kind: Kind, at: nat, i: nat)
    requires i < |ls|
    ensures var d := DriveFor(floor, ls, kind, at);
            && d.regs[i] == RegsFor(ls[i], kind) && d.told[i] == LaneSet(ls[i])
            && PullUp(ls[i]) as nat <= d.pullUp
            && (exists j :: 0 <= j < |ls| && d.pullUp == PullUp(ls[j]) as nat)
    decreases |ls|
  {
    hide RegsFor, LaneSet, PullUp;
    var n := |ls| - 1;
    if n == 0 {
      assert MostPullUp(ls[..0]) == 0;
      assert MostPullUp(ls) == PullUp(ls[0]) as nat;
    } else {
      var k := if i < n then i else 0;
      DriveLaneByLane(floor, ls[..n], kind, at, k);
      var j :| 0 <= j < n && MostPullUp(ls[..n]) == PullUp(ls[..n][j]) as nat;
      assert ls[..n][j] == ls[j];
      assert MostPullUp(ls) == PullUp(ls[j]) as nat || MostPullUp(ls) == PullUp(ls[n]) as nat;
    }
  }
}
