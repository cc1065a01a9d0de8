/** DisplayPort link training (dpout.c; section 3.5.1 of the DisplayPort 1.2 specification) against any
    sink, and the loop around it that raises the swing floor and lowers the rate. */
module LinkTraining {
  import opened Bits
  import opened DriveLevels
  import LinkParams

  /** Any sink: the bytes the k-th exchange reads, and whether it takes what the k-th one writes. A
      read that fails leaves other bytes behind, which are as arbitrary. */
  datatype Sink = Sink(bytes: (nat, nat) -> Byte, takes: nat -> bool)

  function Read(sink: Sink, at: nat, n: nat): (bs: seq<Byte>)
    ensures |bs| == n
  {
    if n == 0 then [] else Read(sink, at, n - 1) + [sink.bytes(at, n - 1)]
  }

  /** Every lane of the status bytes has its clock. */
  predicate Locked(st: seq<Byte>, lanes: nat)
    requires |st| == 3 && lanes <= 4
  {
    forall i :: 0 <= i < lanes ==> Nibble(st, i) % 2 == 1
  }

  /** Every lane is equalized and in symbol lock, and the lanes are aligned. */
  predicate Equalized(st: seq<Byte>, lanes: nat)
    requires |st| == 3 && lanes <= 4
  {
    (forall i :: 0 <= i < lanes ==> Nibble(st, i) / 2 % 4 == 3) && st[2] % 2 == 1
  }

  /** Both in the bits of the status bytes: four bits a lane, two lanes a byte, the alignment in the third. */
  lemma StatusInBits(st: seq<Byte>)
    requires |st| == 3
    ensures Locked(st, 1) <==> st[0] % 2 == 1
    ensures Locked(st, 2) <==> st[0] % 2 == 1 && st[0] / 16 % 2 == 1
    ensures Locked(st, 4) <==> st[0] % 2 == 1 && st[0] / 16 % 2 == 1 && st[1] % 2 == 1 && st[1] / 16 % 2 == 1
    ensures Equalized(st, 1) <==> st[0] / 2 % 4 == 3 && st[2] % 2 == 1
    ensures Equalized(st, 2) <==> st[0] / 2 % 4 == 3 && st[0] / 32 % 4 == 3 && st[2] % 2 == 1
    ensures Equalized(st, 4) <==>
              st[0] / 2 % 4 == 3 && st[0] / 32 % 4 == 3 && st[1] / 2 % 4 == 3 && st[1] / 32 % 4 == 3 && st[2] % 2 == 1
  {
    NibbleOfByte(st[0]);
    NibbleOfByte(st[1]);
    assert Nibble(st, 0) == st[0] % 16 && Nibble(st, 1) == st[0] / 16;
    assert Nibble(st, 2) == st[1] % 16 && Nibble(st, 3) == st[1] / 16;
    hide Nibble;
  }

  lemma NibbleOfByte(b: Byte)
    ensures b % 16 % 2 == b % 2 && b % 16 / 2 % 4 == b / 2 % 4 && b / 16 / 2 % 4 == b / 32 % 4
  {
  }

  // ------------------------------------------------------ following the requests

  /** The lane's levels are those the sink asked for in exchange x: four bits a lane, the swing below the
      pre-emphasis, two lanes a byte. The swing is not below the floor, and the pre-emphasis is cut to
      what it leaves of three. The post cursor is asked for in the exchange after, two bits a lane, when
      the third pattern is in use, and stays otherwise. */
  predicate LaneAsked(sink: Sink, kind: Kind, floor: nat, x: nat, i: nat, before: Lane, after: Lane) {
    var ask := sink.bytes(x, i / 2) / (if i % 2 == 0 then 1 else 16);
    && after.vs == (if ask % 4 > floor then ask % 4 else floor)
    && after.pe == (if ask / 4 % 4 + after.vs > 3 then 3 - after.vs else ask / 4 % 4)
    && after.pc == if !kind.tps3 then before.pc
                   else sink.bytes(x + 1, 0) / (if i == 0 then 1 else if i == 1 then 4 else if i == 2 then 16 else 64)
                        % 4
  }

  ghost predicate Asked(sink: Sink, kind: Kind, floor: nat, x: nat, before: seq<Lane>, after: seq<Lane>) {
    |before| == |after| && forall i :: 0 <= i < |after| ==> LaneAsked(sink, kind, floor, x, i, before[i], after[i])
  }

  /** The exchanges one setting's bytes take, and one reading of the requests. */
  function Writes(kind: Kind): nat {
    if kind.tps3 then 2 else 1
  }

  /** Clock recovery's next setting: a lane had no clock in the status read right after the setting before,
      and the levels are what the exchange right after that one asked for. */
  ghost predicate CrStep(sink: Sink, kind: Kind, lanes: nat, floor: nat, a: Drive, b: Drive)
    requires lanes <= 4
  {
    && !Locked(Read(sink, a.at, 3), lanes) && Asked(sink, kind, floor, a.at + 1, a.lanes, b.lanes)
    && b.at == a.at + 1 + 2 * Writes(kind)
  }

  /** Equalization's next setting after a look at exchange x: the clocks were there, the status right after
      was not equalized, and the levels are what the exchange right after that one asked for. */
  ghost predicate EqStep(sink: Sink, kind: Kind, lanes: nat, floor: nat, x: nat, before: seq<Lane>, b: Drive)
    requires lanes <= 4
  {
    && Locked(Read(sink, x, 3), lanes) && !Equalized(Read(sink, x + 1, 3), lanes)
    && Asked(sink, kind, floor, x + 2, before, b.lanes) && b.at == x + 2 + 2 * Writes(kind)
  }

  ghost predicate CrRun(sink: Sink, kind: Kind, lanes: nat, floor: nat, drives: seq<Drive>, from: nat)
    requires lanes <= 4
  {
    forall k :: from < k < |drives| ==> CrStep(sink, kind, lanes, floor, drives[k - 1], drives[k])
  }

  ghost predicate EqRun(sink: Sink, kind: Kind, lanes: nat, floor: nat, drives: seq<Drive>, from: nat)
    requires lanes <= 4
  {
    forall k :: from < k < |drives| ==>
      EqStep(sink, kind, lanes, floor, drives[k - 1].at, drives[k - 1].lanes, drives[k])
  }

  lemma CrRunGrows(sink: Sink, kind: Kind, lanes: nat, floor: nat, drives: seq<Drive>, from: nat, d: Drive)
    requires lanes <= 4 && from <= |drives| && CrRun(sink, kind, lanes, floor, drives, from)
    requires |drives| > from ==> CrStep(sink, kind, lanes, floor, drives[|drives| - 1], d)
    ensures CrRun(sink, kind, lanes, floor, drives + [d], from)
  {
    hide CrStep;
  }

  lemma EqRunGrows(sink: Sink, kind: Kind, lanes: nat, floor: nat, drives: seq<Drive>, from: nat, d: Drive)
    requires lanes <= 4 && from <= |drives| && EqRun(sink, kind, lanes, floor, drives, from)
    requires |drives| > from ==>
               EqStep(sink, kind, lanes, floor, drives[|drives| - 1].at, drives[|drives| - 1].lanes, d)
    ensures EqRun(sink, kind, lanes, floor, drives + [d], from)
  {
    hide EqStep;
  }

  /** A lane's error counter: fifteen bits, low byte first, below a valid bit. */
  function Errors15(e: seq<Byte>, at: nat): nat
    requires at + 1 < |e|
  {
    (e[at] as nat + 0x100 * e[at + 1] as nat) % 0x8000
  }

  /** The fastest rate that is not above the sink's. */
  function StartRate(maxRate: nat): nat {
    if maxRate >= 20 then 20 else if maxRate >= 10 then 10 else 6
  }

  lemma StartRateIsFastest(maxRate: nat, rate: nat)
    requires rate == 6 || rate == 10 || rate == 20
    ensures LinkParams.IsRate(StartRate(maxRate)) && (maxRate >= 6 ==> StartRate(maxRate) <= maxRate)
    ensures rate <= maxRate ==> rate <= StartRate(maxRate)
  {
  }

  class Trainer {
    const sink: Sink
    const lanes: nat
    const kind: Kind
    var at: nat
    var bw: nat
    var floor: nat
    const vs: array<nat>
    const pe: array<nat>
    const pc: array<nat>
    var status: seq<Byte>
    var drives: seq<Drive>
    var params: LinkParams.Params
    /** The trainings made since the start. */
    var trainings: seq<Training>

    /** The link before the first training, from what the sink can do. */
    constructor (sink: Sink, maxLanes: nat, maxRate: nat, kind: Kind)
      ensures Ready() && this.sink == sink && this.kind == kind
      ensures lanes == if maxLanes >= 2 then 2 else 1
      ensures bw == StartRate(maxRate) && floor == 0 && trainings == [] && drives == []
      ensures fresh(vs) && fresh(pe) && fresh(pc)
    {
      this.sink, this.kind := sink, kind;
      lanes := if maxLanes >= 2 then 2 else 1;
      bw := StartRate(maxRate);
      at, floor, status := 0, 0, [0, 0, 0];
      drives, trainings := [], [];
      params := LinkParams.Params(0, 0, 0, false, 0);
      vs, pe, pc := new nat[4], new nat[4], new nat[4];
    }

    ghost predicate Arrays() {
      vs.Length == pe.Length == pc.Length == 4 && vs != pe && pe != pc && vs != pc
      && (lanes == 1 || lanes == 2 || lanes == 4)
    }

    ghost predicate Valid()
      reads this, vs, pe, pc
    {
      && Arrays() && |status| == 3 && floor <= 2
      && forall i :: 0 <= i < lanes ==> LaneOk(floor, Lane(vs[i], pe[i], pc[i]))
    }

    ghost function Lanes(): (ls: seq<Drivable>)
      requires Valid()
      reads this, vs, pe, pc
      ensures |ls| == lanes
      ensures forall i :: 0 <= i < lanes ==> ls[i] == Lane(vs[i], pe[i], pc[i]) && LaneOk(floor, ls[i])
    {
      seq(lanes, i requires 0 <= i < lanes && LaneOk(0, Lane(vs[i], pe[i], pc[i])) reads vs, pe, pc =>
        Lane(vs[i], pe[i], pc[i]))
    }

    /** `_lt_config`. */
    method Config()
      requires Valid()
      modifies `at, `drives
      ensures Valid() && Lanes() == old(Lanes()) && at == old(at) + Writes(kind)
      ensures drives == old(drives) + [DriveFor(floor, Lanes(), kind, at)]
    {
      hide RegsFor, PullUp, LaneSet;
      ghost var all := Lanes();
      var ls: seq<Drivable> := [];
      var regs: seq<Regs> := [];
      var told: seq<nat> := [];
      var pu := 0;
      for i := 0 to lanes
        invariant ls == all[..i]
        invariant regs == AllRegs(ls, kind) && told == AllTold(ls) && pu == MostPullUp(ls)
      {
        var l: Drivable := Lane(vs[i], pe[i], pc[i]);
        assert (ls + [l])[..i] == ls;
        ls := ls + [l];
        regs := regs + [RegsFor(l, kind)];
        if PullUp(l) as nat > pu {
          pu := PullUp(l) as nat;
        }
        told := told + [LaneSet(l)];
      }
      assert ls == all;
      at := at + (if kind.tps3 then 2 else 1);
      drives := drives + [Drive(floor, ls, regs, pu, told, at)];
    }

    /** The requests for every lane, and no floor or sum broken by granting them. */
    method AskLevels(adj: seq<Byte>)
      requires Valid() && |adj| == 2
      modifies vs, pe
      ensures Valid()
      ensures forall i :: 0 <= i < lanes ==>
                var l := Granted(floor, Nibble(adj, i), 0);
                vs[i] == l.vs && pe[i] == l.pe
      ensures forall i :: lanes <= i < 4 ==> vs[i] == old(vs[i])
    {
      assert forall i :: 0 <= i < lanes ==> pc[i] <= 3;
      hide LaneOk, Granted;
      for i := 0 to lanes
        invariant forall j :: 0 <= j < i ==>
                    vs[j] == Granted(floor, Nibble(adj, j), 0).vs && pe[j] == Granted(floor, Nibble(adj, j), 0).pe
        invariant forall j :: lanes <= j < 4 ==> vs[j] == old(vs[j])
      {
        SetLevel(i, Nibble(adj, i));
      }
      forall i | 0 <= i < lanes
        ensures LaneOk(floor, Lane(vs[i], pe[i], pc[i]))
      {
        GrantedKeeps(floor, Nibble(adj, i), vs[i], pe[i], pc[i]);
      }
    }

    method SetLevel(i: nat, ask: nat)
      requires Arrays() && i < 4 && ask < 16 && floor <= 2
      modifies vs, pe
      ensures vs[i] == Granted(floor, ask, 0).vs && pe[i] == Granted(floor, ask, 0).pe
      ensures forall j :: 0 <= j < 4 && j != i ==> vs[j] == old(vs[j]) && pe[j] == old(pe[j])
    {
      vs[i] := ask % 4;
      pe[i] := ask / 4;
      if vs[i] < floor {
        vs[i] := floor;
      }
      if vs[i] + pe[i] > 3 {
        pe[i] := 3 - vs[i];
      }
    }

    method AskPost(post: Byte)
      requires Valid()
      modifies pc
      ensures Valid()
      ensures forall i :: 0 <= i < lanes ==> pc[i] == PostAsk(post, i)
    {
      for i := 0 to lanes
        invariant Valid()
        invariant forall j :: 0 <= j < i ==> pc[j] == PostAsk(post, j)
      {
        pc[i] := PostAsk(post, i);
      }
    }

    /** `_lt_adjust`: every lane gets what the sink asked for, held to the floor and to the sum. */
    method Adjust()
      requires Valid()
      modifies `at, vs, pe, pc
      ensures Valid() && at == old(at) + Writes(kind)
      ensures Asked(sink, kind, floor, old(at), old(Lanes()), Lanes())
      ensures forall i :: lanes <= i < 4 ==> vs[i] == old(vs[i])
    {
      ghost var before := Lanes();
      hide LaneOk, Granted, Nibble, PostAsk, Read, LaneAsked;
      var adj := Read(sink, at, 2);
      at := at + 1;
      AskLevels(adj);
      if kind.tps3 {
        AskPost(sink.bytes(at, 0));
        at := at + 1;
      }
      forall i | 0 <= i < lanes
        ensures LaneAsked(sink, kind, floor, old(at), i, before[i], Lanes()[i])
      {
        GrantedIsAsked(sink, kind, floor, old(at), i, before[i], Lanes()[i]);
      }
    }

    /** `_cr_done`: lane by lane until one has no clock. */
    method CrDone() returns (done: bool)
      requires Valid()
      modifies `at, `status
      ensures Valid() && Lanes() == old(Lanes())
      ensures status == Read(sink, old(at), 3) && at == old(at) + 1 && done == Locked(status, lanes)
    {
      status := Read(sink, at, 3);
      at := at + 1;
      for i := 0 to lanes
        invariant forall j :: 0 <= j < i ==> Nibble(status, j) % 2 == 1
      {
        if Nibble(status, i) % 2 != 1 {
          return false;
        }
      }
      return true;
    }

    method EqDone() returns (done: bool)
      requires Valid()
      modifies `at, `status
      ensures Valid() && Lanes() == old(Lanes())
      ensures status == Read(sink, old(at), 3) && at == old(at) + 1 && done == Equalized(status, lanes)
    {
      status := Read(sink, at, 3);
      at := at + 1;
      for i := 0 to lanes
        invariant forall j :: 0 <= j < i ==> Nibble(status, j) / 2 % 4 == 3
      {
        if Nibble(status, i) / 2 % 4 != 3 {
          return false;
        }
      }
      return status[2] % 2 == 1;
    }

    /** Clock recovery: at most twenty settings, each but the first following the requests made after the
        one before, and fewer only when every lane locked or the swings stood still over the last five. */
    method Recover() returns (ok: bool, tries: nat)
      requires Valid()
      modifies `at, `drives, `status, vs, pe, pc
      ensures Valid() && Extends(old(drives), drives, floor, lanes, kind)
      ensures 1 <= tries <= 20 && |drives| == |old(drives)| + tries
      ensures drives[|old(drives)|].lanes == old(Lanes()) && drives[|old(drives)|].at == old(at) + Writes(kind)
      ensures CrRun(sink, kind, lanes, floor, drives, |old(drives)|)
      ensures status == Read(sink, drives[|drives| - 1].at, 3) && (ok <==> Locked(status, lanes))
      ensures ok ==> Lanes() == drives[|drives| - 1].lanes && at == drives[|drives| - 1].at + 1
      ensures !ok ==> tries == 20 || (tries >= 5 && StoodStill(drives, Lanes(), 5))
    {
      hide Locked, AllRegs, AllTold, MostPullUp, LaneOk, Read, Asked, Extends, CrRun, StoodStill;
      ok, tries := false, 0;
      var same := 0;
      ghost var first := drives;
      RunsBegin(sink, kind, lanes, floor, drives, Lanes());
      while same < 5 && tries < 20
        invariant Valid() && Extends(first, drives, floor, lanes, kind)
        invariant same <= tries <= 20 && same <= 5 && |drives| == |first| + tries
        invariant tries == 0 ==> at == old(at) && Lanes() == old(Lanes())
        invariant tries > 0 ==> drives[|first|].lanes == old(Lanes()) && drives[|first|].at == old(at) + Writes(kind)
        invariant CrRun(sink, kind, lanes, floor, drives, |first|)
        invariant !ok && (tries > 0 ==>
                            var d := drives[|drives| - 1];
                            && status == Read(sink, d.at, 3) && !Locked(status, lanes)
                            && at == d.at + 1 + Writes(kind)
                            && Asked(sink, kind, floor, d.at + 1, d.lanes, Lanes()))
        invariant StoodStill(drives, Lanes(), same)
        decreases 20 - tries
      {
        tries := tries + 1;
        ghost var was := drives;
        Config();
        DriveKept(first, was, floor, Lanes(), lanes, kind, at);
        CrRunGrows(sink, kind, lanes, floor, was, |first|, drives[|was|]);
        var locked := CrDone();
        if locked {
          ok := true;
          break;
        }
        var before := vs[..];
        ghost var ls := Lanes();
        Adjust();
        if before == vs[..] {
          StillLonger(was, drives, ls, Lanes(), same);
          same := same + 1;
        } else {
          same := 0;
          NoneStill(drives, Lanes());
        }
      }
    }

    /** Channel equalization: up to four looks, each a status for the clocks and one for the rest, the levels
        following the requests between them; it fails after three adjusted settings or a lost clock. */
    method Equalize() returns (ok: bool)
      requires Valid()
      modifies `at, `drives, `status, vs, pe, pc
      ensures Valid() && Extends(old(drives), drives, floor, lanes, kind) && |drives| <= |old(drives)| + 3
      ensures |drives| > |old(drives)| ==>
                EqStep(sink, kind, lanes, floor, old(at), old(Lanes()), drives[|old(drives)|])
      ensures EqRun(sink, kind, lanes, floor, drives, |old(drives)|)
      ensures var x := if |drives| == |old(drives)| then old(at) else drives[|drives| - 1].at;
              Ends(x, |drives| - |old(drives)| == 3, ok)
    {
      hide Locked, Equalized, LaneOk, Read, Asked, Extends, EqRun, EqStep, AllRegs, AllTold, MostPullUp;
      ok := false;
      ghost var first := drives;
      RunsBegin(sink, kind, lanes, floor, drives, Lanes());
      ghost var x, before := at, Lanes();
      var tries := 0;
      while tries < 4
        invariant Valid() && Extends(first, drives, floor, lanes, kind)
        invariant |drives| == |first| + (if tries > 0 then tries - 1 else 0) && tries <= 4 && !ok
        invariant x == (if |drives| == |first| then old(at) else drives[|drives| - 1].at)
        invariant before == Lanes() == if |drives| == |first| then old(Lanes()) else drives[|drives| - 1].lanes
        invariant at == if tries > 0 then x + 2 else x
        invariant tries > 0 ==>
                    Locked(Read(sink, x, 3), lanes) && status == Read(sink, x + 1, 3) && !Equalized(status, lanes)
        invariant |drives| > |first| ==>
                    EqStep(sink, kind, lanes, floor, old(at), old(Lanes()), drives[|first|])
        invariant EqRun(sink, kind, lanes, floor, drives, |first|)
      {
        if tries > 0 {
          ghost var was := drives;
          Adjust();
          Config();
          DriveKept(first, was, floor, Lanes(), lanes, kind, at);
          assert EqStep(sink, kind, lanes, floor, x, before, drives[|was|]) by {
            EqStepIs(sink, kind, lanes, floor, x, before, drives[|was|]);
          }
          EqRunGrows(sink, kind, lanes, floor, was, |first|, drives[|was|]);
          x, before := at, Lanes();
        }
        var locked := CrDone();
        if !locked {
          break;
        }
        ok := EqDone();
        if ok {
          break;
        }
        tries := tries + 1;
      }
    }

    /** How equalization ends with a look at exchange x: well when the clocks were there and the status after
        was equalized; else a lane had no clock, or nothing was left to try. */
    ghost predicate Ends(x: nat, all: bool, ok: bool)
      requires Arrays() && |status| == 3
      reads this
    {
      if ok then
        Locked(Read(sink, x, 3), lanes) && status == Read(sink, x + 1, 3) && Equalized(status, lanes) && at == x + 2
      else
        || (status == Read(sink, x, 3) && !Locked(status, lanes) && at == x + 1)
        || (all && Locked(Read(sink, x, 3), lanes) && status == Read(sink, x + 1, 3) && !Equalized(status, lanes)
            && at == x + 2)
    }

    /** What training needs of the object before it resets the lanes. */
    ghost predicate Ready()
      reads this
    {
      Arrays() && |status| == 3 && floor <= 2
    }

    method ResetLanes()
      requires Ready()
      modifies vs, pe, pc
      ensures Valid() && forall i :: 0 <= i < lanes ==> vs[i] == floor && pe[i] == 0 && pc[i] == 0
    {
      for i := 0 to 4
        invariant forall j :: 0 <= j < i ==> vs[j] == floor && pe[j] == 0 && pc[j] == 0
      {
        vs[i], pe[i], pc[i] := floor, 0, 0;
      }
    }

    /** How a training whose settings are those from `from` on ended, `tries` of them in clock recovery; the
        last look at equalization began at exchange `look`. */
    ghost predicate Finished(code: nat, from: nat, tries: nat)
      requires Valid() && 1 <= tries && from + tries <= |drives|
      reads this, vs, pe, pc
    {
      var look := LastLook(drives, from, tries);
      && (code == 0 ==>
            Locked(Read(sink, look, 3), lanes) && status == Read(sink, look + 1, 3) && Equalized(status, lanes)
            && at == look + 3)
      && (code == 2 ==>
            |drives| == from + tries && status == Read(sink, drives[|drives| - 1].at, 3) && !Locked(status, lanes)
            && (tries == 20 || (tries >= 5 && StoodStill(drives, Lanes(), 5))))
      && (code == 3 ==>
            || (status == Read(sink, look, 3) && !Locked(status, lanes))
            || (|drives| == from + tries + 3 && Locked(Read(sink, look, 3), lanes)
                && status == Read(sink, look + 1, 3) && !Equalized(status, lanes)))
    }

    /** Both patterns of one training, from the levels of the floor. */
    method Patterns() returns (code: nat, tries: nat)
      requires Ready()
      modifies `at, `drives, `status, vs, pe, pc
      ensures code in {0, 2, 3} && Valid() && Extends(old(drives), drives, floor, lanes, kind)
      ensures Trained(sink, kind, lanes, floor, drives, |old(drives)|, tries, old(at))
      ensures Finished(code, |old(drives)|, tries)
    {
      hide Locked, Equalized, LaneOk, StoodStill, Read, CrRun, EqRun, EqStep, Extends, Trained, Writes;
      ghost var was := drives;
      ResetLanes();
      ghost var start := Lanes();
      at := at + 1;
      assert Lanes() == start;
      var ok;
      ok, tries := Recover();
      ghost var cr, ls := drives, Lanes();
      at := at + 1;
      assert Lanes() == ls;
      RunsBegin(sink, kind, lanes, floor, drives, ls);
      if !ok {
        TrainedIs(sink, kind, lanes, floor, cr, drives, |was|, start, old(at));
        return 2, tries;
      }
      ok := Equalize();
      ExtendsOn(was, cr, drives, floor, lanes, kind);
      at := at + 1;
      code := if ok then 0 else 3;
      TrainedIs(sink, kind, lanes, floor, cr, drives, |was|, start, old(at));
    }

    /** `_link_train`: 0, or 1 when the sink would not take the rate or the width, 2 without clock
        recovery, 3 without equalization. Every setting made on the way keeps every lane in range, the first
        is the floor's, and each later one follows the requests made after the one before. */
    method Train() returns (code: nat, tries: nat)
      requires Ready()
      modifies `at, `drives, `status, vs, pe, pc
      ensures code <= 3 && Ready() && (code != 1 ==> Valid())
      ensures Extends(old(drives), drives, floor, lanes, kind)
      ensures code == 1 <==> !(sink.takes(old(at) + 2) && sink.takes(old(at) + 3))
      ensures code == 1 ==> drives == old(drives) && tries == 0
      ensures code != 1 ==> Trained(sink, kind, lanes, floor, drives, |old(drives)|, tries, old(at) + 4)
                            && Finished(code, |old(drives)|, tries)
    {
      hide Extends, Trained, Finished, Locked, LaneOk;
      RunsBegin(sink, kind, lanes, floor, drives, []);
      tries := 0;
      at := at + 3;
      if !sink.takes(at - 1) {
        return 1, 0;
      }
      at := at + 1;
      if !sink.takes(at - 1) {
        return 1, 0;
      }
      code, tries := Patterns();
    }

    /** The symbol errors of both lanes over the margin wait: fifteen bits each. */
    method MarginErrors() returns (errors: nat)
      modifies `at
      ensures errors == Errors15(Read(sink, old(at) + 1, 4), 0) + Errors15(Read(sink, old(at) + 1, 4), 2)
    {
      at := at + 1;
      var e := Read(sink, at, 4);
      at := at + 1;
      errors := Errors15(e, 0) + Errors15(e, 2);
    }

    /** One training, with the margin read after one that worked, noted. */
    method TrainAndNote() returns (t: Training)
      requires Ready() && AllGood(drives, lanes, kind)
      modifies `at, `drives, `status, `trainings, vs, pe, pc
      ensures Ready() && AllGood(drives, lanes, kind) && old(drives) <= drives
      ensures t.bw == bw && t.floor == floor && trainings == old(trainings) + [t] && t.from == |old(drives)|
      ensures Recorded(sink, kind, lanes, drives, t)
      ensures t.code == 0 ==> Valid() && Equalized(status, lanes)
    {
      hide Locked, Equalized, LaneOk, GoodDrive, Trained, StoodStill, Read;
      ghost var was := drives;
      var from, began := |drives|, at + 4;
      var r, tries := Train();
      AllGoodExtends(was, drives, floor, lanes, kind);
      var errors := 0;
      if r == 0 {
        MarginBits(sink, at + 1);
        errors := MarginErrors();
      }
      t := Training(bw, floor, r, errors, from, tries, began);
      trainings := trainings + [t];
    }

    /** The next rate down, from the lowest floor, and its parameters. */
    method LowerRate() returns (fits: bool)
      requires LinkParams.IsLanes(lanes) && LinkParams.IsRate(bw) && bw != 6
      modifies `bw, `floor, `params
      ensures floor == 0 && bw == if old(bw) == 20 then 10 else 6
      ensures fits == LinkParams.Fits(LinkParams.SCREEN, lanes, bw)
      ensures fits ==> ParamsFor(lanes, bw, params)
    {
      hide ParamsFor, LinkParams.Chosen, LinkParams.Ratio, LinkParams.LineSymbols, LinkParams.ParamsOf, LinkParams.Fits;
      bw := if bw == 20 then 10 else 6;
      floor := 0;
      var code, p, b := LinkParams.LinkCalc(lanes, bw, LinkParams.SCREEN);
      fits := code == 0;
      if fits {
        params := p;
        ParamsAre(lanes, bw, p, b);
      }
    }

    /** How the loop ended, having begun at rate `first`: at most nine trainings in the order of the
        schedule, all settings in range; 0 with the link up at the rate and floor of the last training,
        without margin errors or at the highest floor, and the parameters those of that rate; 9 when the
        lowest rate failed; 2 when the mode does not fit the rate it came down to. */
    ghost predicate Ended(code: nat, first: nat)
      reads this, vs, pe, pc
    {
      && code in {0, 2, 9} && 1 <= |trainings| <= 9 && LinkParams.IsRate(bw) && AllGood(drives, lanes, kind)
      && AllRecorded(sink, kind, lanes, drives, trainings)
      && Schedule(trainings) && trainings[0].bw == first && trainings[0].floor == 0
      && var last := trainings[|trainings| - 1];
      && (code == 0 ==> last.bw == bw && last.floor == floor && last.code == 0
                        && (last.errors == 0 || floor == 2)
                        && Valid() && Equalized(status, lanes) && ParamsFor(lanes, bw, params))
      && (code == 9 ==> last.bw == bw == 6 && last.code != 0)
      && (code == 2 ==> last.code != 0 && !LinkParams.Fits(LinkParams.SCREEN, lanes, bw))
    }

    /** `_video_start` as far as the link: the parameters first, and nothing trained when the mode does not
        fit, which is one lane at the lowest rate; else the loop. */
    method Start() returns (code: nat)
      requires Ready() && LinkParams.IsRate(bw) && floor == 0 && trainings == [] && drives == []
      modifies this, vs, pe, pc
      ensures lanes * old(bw) < 10 ==> code == 2 && trainings == [] && drives == []
      ensures lanes * old(bw) >= 10 ==> Ended(code, old(bw))
    {
      hide ParamsFor, LinkParams.Chosen, LinkParams.Ratio, LinkParams.LineSymbols, LinkParams.ParamsOf,
        LinkParams.Fits;
      LinkParams.ScreenRatio(lanes, bw);
      var r, p, b := LinkParams.LinkCalc(lanes, bw, LinkParams.SCREEN);
      if r != 0 {
        return 2;
      }
      params := p;
      ParamsAre(lanes, bw, p, b);
      code := BringUp();
    }

    /** The loop of `_video_start`. It ends for every sink. */
    method BringUp() returns (code: nat)
      requires Ready() && LinkParams.IsRate(bw) && floor == 0 && trainings == [] && drives == []
      requires ParamsFor(lanes, bw, params)
      modifies this, vs, pe, pc
      ensures Ended(code, old(bw))
    {
      hide Equalized, LaneOk, AllGood, ParamsFor, Schedule, LinkParams.Fits, Recorded, AllRecorded;
      NoSchedule();
      NoDrives(sink, lanes, kind);
      while true
        invariant Ready() && LinkParams.IsRate(bw) && ParamsFor(lanes, bw, params)
        invariant Schedule(trainings)
        invariant if trainings == [] then bw == old(bw) && floor == 0
                  else trainings[0].bw == old(bw) && trainings[0].floor == 0
                       && Goes(trainings[|trainings| - 1], bw, floor)
        invariant AllGood(drives, lanes, kind) && AllRecorded(sink, kind, lanes, drives, trainings)
        decreases Measure(bw, floor)
      {
        ghost var before, was := trainings, drives;
        var t := TrainAndNote();
        AllRecordedGrows(sink, kind, lanes, was, drives, before, t);
        ScheduleGrows(before, t);
        ScheduleBounded(trainings);
        if t.code == 0 {
          if t.errors == 0 || floor >= 2 {
            return 0;
          }
          floor := floor + 1;
          continue;
        }
        if bw == 6 {
          return 9;
        }
        var fits := LowerRate();
        if !fits {
          return 2;
        }
      }
    }
  }

  // ------------------------------------------------------------ the outer loop

  /** One training: the rate and the floor it was made at, how it ended, the margin errors after, and where
      it began: the first of its settings, how many were clock recovery's, and the exchange that puts the first
      pattern on. */
  datatype Training = Training(bw: nat, floor: nat, code: nat, errors: nat, from: nat, tries: nat, began: nat)

  /** The settings of a training, from the first on: the floor's swing and nothing else, then what the sink
      asked for, `tries` settings in clock recovery and at most three in equalization, which begins two
      exchanges after the last status of clock recovery. */
  ghost predicate Trained(sink: Sink, kind: Kind, lanes: nat, floor: nat, drives: seq<Drive>, from: nat, tries: nat,
                          began: nat)
  {
    && lanes <= 4 && 1 <= tries <= 20 && from + tries <= |drives| <= from + tries + 3
    && drives[from].at == began + 1 + Writes(kind)
    && |drives[from].lanes| == lanes && (forall i :: 0 <= i < lanes ==> drives[from].lanes[i] == Lane(floor, 0, 0))
    && (forall k :: from < k < from + tries ==> CrStep(sink, kind, lanes, floor, drives[k - 1], drives[k]))
    && (forall k :: from + tries <= k < |drives| ==>
          EqStep(sink, kind, lanes, floor, drives[k - 1].at + (if k == from + tries then 2 else 0),
                 drives[k - 1].lanes, drives[k]))
    && (|drives| > from + tries ==> Locked(Read(sink, drives[from + tries - 1].at, 3), lanes))
  }

  function LastLook(drives: seq<Drive>, from: nat, tries: nat): nat
    requires 1 <= tries && from + tries <= |drives|
  {
    drives[|drives| - 1].at + (if |drives| == from + tries then 2 else 0)
  }

  lemma TrainedIs(sink: Sink, kind: Kind, lanes: nat, floor: nat, cr: seq<Drive>, drives: seq<Drive>, from: nat,
                  start: seq<Drivable>, began: nat)
    requires lanes <= 4 && from < |cr| <= from + 20 && cr <= drives && |drives| <= |cr| + 3
    requires cr[from].at == began + 1 + Writes(kind) && cr[from].lanes == start && |start| == lanes
    requires forall i :: 0 <= i < lanes ==> start[i] == Lane(floor, 0, 0)
    requires CrRun(sink, kind, lanes, floor, cr, from)
    requires |drives| > |cr| ==>
               && Locked(Read(sink, cr[|cr| - 1].at, 3), lanes)
               && EqStep(sink, kind, lanes, floor, cr[|cr| - 1].at + 2, cr[|cr| - 1].lanes, drives[|cr|])
    requires EqRun(sink, kind, lanes, floor, drives, |cr|)
    ensures Trained(sink, kind, lanes, floor, drives, from, |cr| - from, began)
  {
    hide Locked, Read, CrStep, EqStep;
  }

  /** What is noted of a training: its settings as above, and after one that worked the symbol errors of two
      lanes, fifteen bits each, in the second reading after the pattern was taken off. */
  ghost predicate Recorded(sink: Sink, kind: Kind, lanes: nat, drives: seq<Drive>, t: Training) {
    if t.code == 1 then t.errors == 0 && |drives| == t.from
    else
      && Trained(sink, kind, lanes, t.floor, drives, t.from, t.tries, t.began)
      && t.errors == if t.code != 0 then 0
                     else
                       var x := LastLook(drives, t.from, t.tries) + 4;
                       (sink.bytes(x, 0) + 0x100 * sink.bytes(x, 1)) % 0x8000
                       + (sink.bytes(x, 2) + 0x100 * sink.bytes(x, 3)) % 0x8000
  }

  /** Training i's settings end where the next one's begin. */
  ghost predicate RecordedAt(sink: Sink, kind: Kind, lanes: nat, drives: seq<Drive>, ts: seq<Training>, i: nat)
    requires i < |ts|
  {
    var end := if i < |ts| - 1 then ts[i + 1].from else |drives|;
    ts[i].from <= end <= |drives| && Recorded(sink, kind, lanes, drives[..end], ts[i])
  }

  ghost predicate AllRecorded(sink: Sink, kind: Kind, lanes: nat, drives: seq<Drive>, ts: seq<Training>) {
    forall i :: 0 <= i < |ts| ==> RecordedAt(sink, kind, lanes, drives, ts, i)
  }

  lemma AllRecordedGrows(sink: Sink, kind: Kind, lanes: nat, was: seq<Drive>, drives: seq<Drive>, ts: seq<Training>,
                         t: Training)
    requires AllRecorded(sink, kind, lanes, was, ts) && was <= drives && t.from == |was|
    requires Recorded(sink, kind, lanes, drives, t)
    ensures AllRecorded(sink, kind, lanes, drives, ts + [t])
  {
    hide Recorded;
    var all := ts + [t];
    forall i | 0 <= i < |all|
      ensures RecordedAt(sink, kind, lanes, drives, all, i)
    {
      if i < |ts| {
        assert RecordedAt(sink, kind, lanes, was, ts, i);
        var end := if i < |ts| - 1 then ts[i + 1].from else |was|;
        assert drives[..end] == was[..end];
      } else {
        assert drives[..|drives|] == drives;
      }
    }
  }

  lemma MarginBits(sink: Sink, x: nat)
    ensures Errors15(Read(sink, x, 4), 0) + Errors15(Read(sink, x, 4), 2)
         == (sink.bytes(x, 0) + 0x100 * sink.bytes(x, 1)) % 0x8000
            + (sink.bytes(x, 2) + 0x100 * sink.bytes(x, 3)) % 0x8000
  {
    TwoRead(sink, x);
    assert Read(sink, x, 3) == Read(sink, x, 2) + [sink.bytes(x, 2)];
    assert Read(sink, x, 4) == Read(sink, x, 3) + [sink.bytes(x, 3)];
  }

  /** What is tried after a training: a higher floor when it worked with errors to spare, a lower rate
      when it did not. */
  predicate Goes(t: Training, bw: nat, floor: nat) {
    if t.code == 0 then t.errors > 0 && t.floor < 2 && bw == t.bw && floor == t.floor + 1
    else t.bw != 6 && bw == (if t.bw == 20 then 10 else 6) && floor == 0
  }

  predicate Follows(a: Training, b: Training) {
    Goes(a, b.bw, b.floor)
  }

  ghost predicate Schedule(ts: seq<Training>) {
    && (forall i :: 0 <= i < |ts| ==> LinkParams.IsRate(ts[i].bw) && ts[i].floor <= 2)
    && (forall i :: 0 < i < |ts| ==> Follows(ts[i - 1], ts[i]))
  }

  lemma NoSchedule()
    ensures Schedule([])
  {
  }

  lemma ScheduleGrows(ts: seq<Training>, t: Training)
    requires Schedule(ts) && LinkParams.IsRate(t.bw) && t.floor <= 2
    requires ts != [] ==> Goes(ts[|ts| - 1], t.bw, t.floor)
    ensures Schedule(ts + [t])
  {
  }

  /** What follows what: the same rate one swing up, at most to 2, after a training that worked with errors; the
      next rate down, from 5.4 to 2.7 to 1.62 Gb/s, from the lowest swing, after one that did not. */
  lemma ScheduleInFigures(ts: seq<Training>, i: nat)
    requires Schedule(ts) && 0 < i < |ts|
    ensures ts[i - 1].code == 0 ==> ts[i - 1].errors > 0 && ts[i].bw == ts[i - 1].bw
                                    && ts[i].floor == ts[i - 1].floor + 1 <= 2
    ensures ts[i - 1].code != 0 ==> ts[i].floor == 0 && ((ts[i - 1].bw == 20 && ts[i].bw == 10)
                                                         || (ts[i - 1].bw == 10 && ts[i].bw == 6))
  {
    assert Follows(ts[i - 1], ts[i]);
  }

  /** Lexicographic: the rate, then the floors left. */
  function Measure(bw: nat, floor: nat): nat {
    3 * (if bw == 20 then 2 else if bw == 10 then 1 else 0) + (if floor <= 2 then 2 - floor else 0)
  }

  lemma {:induction false} ScheduleBounded(ts: seq<Training>)
    requires ts != [] && Schedule(ts)
    ensures |ts| + Measure(ts[|ts| - 1].bw, ts[|ts| - 1].floor) <= Measure(ts[0].bw, ts[0].floor) + 1 <= 9
    decreases |ts|
  {
    var n := |ts| - 1;
    if n > 0 {
      assert Follows(ts[n - 1], ts[n]);
      ScheduleBounded(ts[..n]);
    }
  }

  /** No rate and floor are ever tried twice. */
  lemma {:induction false} NothingTriedTwice(ts: seq<Training>, i: nat, j: nat)
    requires Schedule(ts) && i < j < |ts|
    ensures Measure(ts[j].bw, ts[j].floor) < Measure(ts[i].bw, ts[i].floor)
    ensures (ts[i].bw, ts[i].floor) != (ts[j].bw, ts[j].floor)
    decreases j
  {
    assert Follows(ts[j - 1], ts[j]);
    if i < j - 1 {
      NothingTriedTwice(ts, i, j - 1);
    }
  }

  /** The parameters computed for a rate, on the console's own mode. */
  ghost predicate ParamsFor(lanes: nat, bw: nat, p: LinkParams.Params) {
    && LinkParams.IsLanes(lanes) && LinkParams.IsRate(bw) && LinkParams.Fits(LinkParams.SCREEN, lanes, bw)
    && var ratio := LinkParams.Ratio(LinkParams.SCREEN, lanes, bw);
    ratio < LinkParams.F
    && exists b ::
      LinkParams.Chosen(ratio, LinkParams.LineSymbols(LinkParams.SCREEN, bw), 32, b)
      && p == LinkParams.ParamsOf(ratio, LinkParams.SCREEN.xres, lanes, b)
  }

  lemma ParamsAre(lanes: nat, bw: nat, p: LinkParams.Params, b: LinkParams.Choice)
    requires LinkParams.IsLanes(lanes) && LinkParams.IsRate(bw) && LinkParams.Fits(LinkParams.SCREEN, lanes, bw)
    requires var ratio := LinkParams.Ratio(LinkParams.SCREEN, lanes, bw);
             ratio < LinkParams.F && LinkParams.Chosen(ratio, LinkParams.LineSymbols(LinkParams.SCREEN, bw), 32, b)
             && p == LinkParams.ParamsOf(ratio, LinkParams.SCREEN.xres, lanes, b)
    ensures ParamsFor(lanes, bw, p)
  {
    hide LinkParams.Chosen, LinkParams.Ratio, LinkParams.LineSymbols, LinkParams.ParamsOf, LinkParams.Fits;
  }

  /** So whatever rate the loop settles on, the registers can hold its parameters. */
  lemma ParamsForInRange(lanes: nat, bw: nat, p: LinkParams.Params)
    requires ParamsFor(lanes, bw, p)
    ensures 32 <= p.tu <= 64 && 1 <= p.frac <= 15 && p.watermark <= 30 && p.count <= 63
    ensures p == if lanes * bw == 10 then LinkParams.Params(56, 46, 5, false, 13)
                 else if lanes * bw == 12 then LinkParams.Params(64, 43, 1, false, 18)
                 else if lanes * bw == 20 then LinkParams.Params(56, 23, 10, false, 18)
                 else if lanes * bw == 24 then LinkParams.Params(64, 21, 1, false, 19)
                 else if lanes * bw == 40 then LinkParams.Params(64, 13, 5, false, 15)
                 else LinkParams.Params(40, 4, 8, false, 8)
  {
    hide LinkParams.Chosen, LinkParams.Ratio, LinkParams.LineSymbols, LinkParams.ParamsOf, LinkParams.Fits;
    var ratio, line := LinkParams.Ratio(LinkParams.SCREEN, lanes, bw), LinkParams.LineSymbols(LinkParams.SCREEN, bw);
    var b :| LinkParams.Chosen(ratio, line, 32, b) && p == LinkParams.ParamsOf(ratio, LinkParams.SCREEN.xres, lanes, b);
    LinkParams.ScreenModeIsKept(lanes, bw, b);
    LinkParams.ScreenParams(lanes, bw, b);
    LinkParams.ParamsInRange(ratio, line, LinkParams.SCREEN.xres, lanes, b);
  }

  // -------------------------------------------------------------- what is kept

  ghost predicate GoodDrive(d: Drive, floor: nat, lanes: nat, kind: Kind) {
    && |d.lanes| == lanes && (forall i :: 0 <= i < |d.lanes| ==> LaneOk(floor, d.lanes[i]))
    && d == DriveFor(floor, d.lanes, kind, d.at)
  }

  ghost predicate Extends(was: seq<Drive>, now: seq<Drive>, floor: nat, lanes: nat, kind: Kind) {
    was <= now && forall k :: |was| <= k < |now| ==> GoodDrive(now[k], floor, lanes, kind)
  }

  lemma ExtendsOn(a: seq<Drive>, b: seq<Drive>, c: seq<Drive>, floor: nat, lanes: nat, kind: Kind)
    requires Extends(a, b, floor, lanes, kind) && Extends(b, c, floor, lanes, kind)
    ensures Extends(a, c, floor, lanes, kind) && a <= b <= c
  {
    hide GoodDrive;
  }

  ghost predicate AllGood(drives: seq<Drive>, lanes: nat, kind: Kind) {
    forall k :: 0 <= k < |drives| ==> drives[k].floor <= 2 && GoodDrive(drives[k], drives[k].floor, lanes, kind)
  }

  lemma NoDrives(sink: Sink, lanes: nat, kind: Kind)
    ensures AllGood([], lanes, kind) && AllRecorded(sink, kind, lanes, [], [])
  {
  }

  lemma AllGoodExtends(was: seq<Drive>, now: seq<Drive>, floor: nat, lanes: nat, kind: Kind)
    requires AllGood(was, lanes, kind) && Extends(was, now, floor, lanes, kind) && floor <= 2
    ensures AllGood(now, lanes, kind)
  {
    hide AllRegs, AllTold, MostPullUp, LaneOk;
  }

  predicate SameSwing(a: seq<Drivable>, b: seq<Drivable>) {
    |a| == |b| && forall i :: 0 <= i < |a| ==> a[i].vs == b[i].vs
  }

  /** The last n settings all had the swings of `ls`. */
  ghost predicate StoodStill(drives: seq<Drive>, ls: seq<Drivable>, n: nat) {
    n <= |drives| && forall k :: |drives| - n <= k < |drives| ==> SameSwing(drives[k].lanes, ls)
  }

  lemma DriveKept(first: seq<Drive>, was: seq<Drive>, floor: nat, ls: seq<Drivable>, lanes: nat, kind: Kind, at: nat)
    requires Extends(first, was, floor, lanes, kind) && |ls| == lanes
    requires forall i :: 0 <= i < |ls| ==> LaneOk(floor, ls[i])
    ensures Extends(first, was + [DriveFor(floor, ls, kind, at)], floor, lanes, kind)
  {
    hide AllRegs, AllTold, MostPullUp, LaneOk;
  }

  lemma StillLonger(was: seq<Drive>, now: seq<Drive>, ls: seq<Drivable>, ls': seq<Drivable>, n: nat)
    requires StoodStill(was, ls, n) && SameSwing(ls, ls')
    requires |now| == |was| + 1 && was <= now && now[|was|].lanes == ls
    ensures StoodStill(now, ls', n + 1)
  {
  }

  lemma RunsBegin(sink: Sink, kind: Kind, lanes: nat, floor: nat, drives: seq<Drive>, ls: seq<Drivable>)
    requires lanes <= 4
    ensures CrRun(sink, kind, lanes, floor, drives, |drives|) && EqRun(sink, kind, lanes, floor, drives, |drives|)
    ensures Extends(drives, drives, floor, lanes, kind) && StoodStill(drives, ls, 0)
  {
  }

  lemma NoneStill(drives: seq<Drive>, ls: seq<Drivable>)
    ensures StoodStill(drives, ls, 0)
  {
  }

  lemma EqStepIs(sink: Sink, kind: Kind, lanes: nat, floor: nat, x: nat, before: seq<Lane>, b: Drive)
    requires lanes <= 4 && Locked(Read(sink, x, 3), lanes) && !Equalized(Read(sink, x + 1, 3), lanes)
    requires Asked(sink, kind, floor, x + 2, before, b.lanes) && b.at == x + 2 + 2 * Writes(kind)
    ensures EqStep(sink, kind, lanes, floor, x, before, b)
  {
  }

  lemma TwoRead(sink: Sink, x: nat)
    ensures Read(sink, x, 2) == [sink.bytes(x, 0), sink.bytes(x, 1)]
  {
    assert Read(sink, x, 1) == Read(sink, x, 0) + [sink.bytes(x, 0)];
  }

  lemma NibbleBits(bs: seq<Byte>, i: nat)
    requires |bs| == 2 && i < 4
    ensures Nibble(bs, i) % 4 == bs[i / 2] / (if i % 2 == 0 then 1 else 16) % 4
    ensures Nibble(bs, i) / 4 == bs[i / 2] / (if i % 2 == 0 then 1 else 16) / 4 % 4
  {
  }

  lemma PostBits(b: Byte, i: nat)
    requires i < 4
    ensures PostAsk(b, i) == b / (if i == 0 then 1 else if i == 1 then 4 else if i == 2 then 16 else 64) % 4
  {
    if i == 0 {
    } else if i == 1 {
    } else if i == 2 {
    } else {
      assert i == 3;
    }
  }

  /** What is granted, in the sink's own bits. */
  lemma GrantedIsAsked(sink: Sink, kind: Kind, floor: nat, x: nat, i: nat, before: Lane, after: Lane)
    requires i < 4 && floor <= 2
    requires var ask := Granted(floor, Nibble(Read(sink, x, 2), i), 0);
             after.vs == ask.vs && after.pe == ask.pe
    requires after.pc == if kind.tps3 then PostAsk(sink.bytes(x + 1, 0), i) else before.pc
    ensures LaneAsked(sink, kind, floor, x, i, before, after)
  {
    hide Read, Nibble, PostAsk;
    TwoRead(sink, x);
    NibbleBits(Read(sink, x, 2), i);
    PostBits(sink.bytes(x + 1, 0), i);
    assert Read(sink, x, 2)[i / 2] == sink.bytes(x, i / 2);
  }

  lemma GrantedKeeps(floor: nat, ask: nat, vs: nat, pe: nat, pc: nat)
    requires floor <= 2 && ask < 16 && pc <= 3
    requires vs == Granted(floor, ask, 0).vs && pe == Granted(floor, ask, 0).pe
    ensures LaneOk(floor, Lane(vs, pe, pc))
  {
    GrantedIsOk(floor, ask, pc);
  }
}