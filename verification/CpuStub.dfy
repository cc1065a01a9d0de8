/** CPU0's program (`cpu_stub_main`, cpu_stub/stub.c) on its timeline: the order of its breadcrumbs,
    waits and bus accesses, and how far apart its heartbeats can be when every access completes.

    What a register answers is arbitrary, and so is the time an access takes up to half a millisecond.
    A wait lasts what it says and at most one more access. */
module CpuStub {
  import opened Bits
  import opened Supervisor
  import opened StallRule

  const ACCESS := 500
  const SLACK := POLL_US

  /** The time the k-th access takes, and whether it shows what the code looks for there. */
  datatype Bus = Bus(cost: nat -> nat, shows: nat -> bool)

  ghost predicate Completes(w: Bus) {
    forall k: nat :: w.cost(k) <= ACCESS
  }

  /** The longest a heartbeat can keep off: 1.2 s while the link is waited for, 45 ms from the
      configuration stage on, 75 ms before. */
  function Longest(stage: nat): nat {
    if stage == 9 then 1204000 else if stage < 9 then 75000 else 45000
  }

  /** The breadcrumbs come in order, none skipped but by the three ways out: after the aperture's probe, after a
      link that did not come up, and after an endpoint that is not the one looked for. */
  predicate Onward(a: nat, b: nat) {
    b == a || b == a + 1 || (b == 12 && (a == 5 || a == 9 || a == 10))
  }

  /** From enabling the port to waiting for its link: the datasheet's 12 ms of clock before the reset pulse, the
      pulse of 2 ms, and 8 ms after it. */
  predicate PortTakesItsTime(a: Beat, b: Beat) {
    a.stage == 8 && b.stage == 9 ==> b.stored >= a.at + 22000
  }

  /** One heartbeat after another: in order, within the bound, with the breadcrumb that comes next. */
  predicate Comes(a: Beat, b: Beat) {
    && a.at <= b.stored <= b.at <= a.at + Longest(a.stage)
    && Onward(a.stage, b.stage) && PortTakesItsTime(a, b)
  }

  /** The timeline so far, in order and with no gap longer than that. */
  ghost predicate Chain(magicAt: nat, beats: seq<Beat>) {
    && beats != [] && magicAt <= beats[0].stored <= beats[0].at
    && (forall k :: 0 < k < |beats| ==> Comes(beats[k - 1], beats[k]))
  }

  lemma ChainGrows(magicAt: nat, beats: seq<Beat>, b: Beat)
    requires Chain(magicAt, beats) && Comes(beats[|beats| - 1], b)
    ensures Chain(magicAt, beats + [b])
  {
    hide Comes;
  }

  lemma ChainEnds(magicAt: nat, beats: seq<Beat>, doneAt: nat)
    requires Chain(magicAt, beats) && beats[|beats| - 1].at == doneAt <= magicAt + TOTAL
    ensures Completed(Timeline(magicAt, beats, doneAt))
  {
    hide Window, Longest, Onward, PortTakesItsTime;
    LongestIsInWindow();
    forall k | 0 <= k < |beats|
      ensures beats[k].stored <= beats[k].at
    {
      if k > 0 {
        assert Comes(beats[k - 1], beats[k]);
      }
    }
    forall k | 0 < k < |beats|
      ensures beats[k - 1].at <= beats[k].stored
      ensures beats[k].at + SLACK <= beats[k - 1].at + Window(beats[k - 1].stage)
    {
      assert Comes(beats[k - 1], beats[k]);
    }
  }

  /** The bounds leave a poll's time in every window. */
  lemma LongestIsInWindow()
    ensures forall s: nat :: Longest(s) + SLACK <= Window(s)
  {
  }

  const TOTAL := 6000000

  /** What a run of the stub whose accesses complete looks like: in order, no two heartbeats further
      apart than the bound for the stage between them, and over in six seconds. */
  ghost predicate Completed(t: Timeline) {
    && Ordered(t) && InWindow(t, SLACK) && t.doneAt <= t.magicAt + TOTAL
    && (forall k :: 0 < k < |t.beats| ==> Comes(t.beats[k - 1], t.beats[k]))
  }

  /** Such a run is seen to finish by every supervisor whose polls see whole steps, unless CPU0 took
      over thirteen seconds to start. */
  lemma CompletedIsSeenToFinish(t: Timeline, polls: nat -> Poll, when: nat -> nat, begun: nat)
    requires Completed(t) && Samples(t, polls, when, SLACK)
    requires forall j :: 0 <= j < CEILING ==> Whole(t, when(j), polls(j).snap)
    requires begun <= when(0) && t.magicAt <= when(0) + 13000000
    ensures Watch(polls, 0, CEILING, 0, begun, false).ending == Finished
  {
    hide Watch, Samples, Ordered, InWindow, Whole;
    HealthyStubFinishes(t, polls, when, SLACK, begun);
  }

  class Cpu0 {
    const bus: Bus
    var now: nat
    var at: nat
    var magicAt: nat
    var beats: seq<Beat>
    /** What was found on the way: whether the aperture took the witness, the link came up, and the endpoint is
        the one looked for. */
    var live: bool
    var linked: bool
    var known: bool

    constructor (bus: Bus, released: nat)
      ensures this.bus == bus && now == released
    {
      this.bus := bus;
      now, at, magicAt, beats := released, 0, 0, [];
      live, linked, known := false, false, false;
    }

    ghost predicate Running()
      reads this
    {
      Completes(bus) && beats != [] && beats[0].stage == 1 && Chain(magicAt, beats) && beats[|beats| - 1].at <= now
    }

    ghost function Stage(): nat
      reads this
      requires beats != []
    {
      beats[|beats| - 1].stage
    }

    /** Since the last heartbeat. */
    ghost function Idle(): nat
      reads this
      requires Running()
    {
      now - beats[|beats| - 1].at
    }

    // ------------------------------------------------------------ primitives

    method Access() returns (shown: bool)
      requires Running()
      modifies `now, `at
      ensures Running() && old(now) <= now <= old(now) + ACCESS
      ensures at == old(at) + 1 && shown == bus.shows(old(at))
    {
      shown := bus.shows(at);
      now := now + bus.cost(at);
      at := at + 1;
    }

    method Accesses(n: nat)
      requires Running()
      modifies `now, `at
      ensures Running() && old(now) <= now <= old(now) + n * ACCESS && at == old(at) + n
    {
      for i := 0 to n
        invariant Running() && old(now) <= now <= old(now) + i * ACCESS && at == old(at) + i
      {
        var _ := Access();
      }
    }

    /** `udelay`. */
    method Delay(us: nat)
      requires Running()
      modifies `now, `at
      ensures Running() && old(now) + us <= now <= old(now) + us + ACCESS && at == old(at) + 1
    {
      now := now + us;
      var _ := Access();
    }

    /** `step`: the stage, then the heartbeat. */
    method Step(stage: nat)
      requires Running() && Idle() + ACCESS <= Longest(Stage()) && Onward(Stage(), stage)
      requires Stage() == 8 && stage == 9 ==> Idle() >= 22000
      modifies `now, `at, `beats
      ensures at == old(at) + 1 && |beats| == |old(beats)| + 1 && beats[|beats| - 2].stage == old(Stage())
      ensures Running() && Stage() == stage && Idle() == 0
      ensures magicAt == old(magicAt) && old(now) <= now <= old(now) + ACCESS
    {
      hide Longest, Chain;
      var stored := now;
      var _ := Access();
      ChainGrows(magicAt, beats, Beat(stored, now, stage));
      beats := beats + [Beat(stored, now, stage)];
    }

    /** A bump of the heartbeat alone. */
    method Bump()
      requires Running() && Idle() <= Longest(Stage())
      modifies `beats
      ensures Running() && Stage() == old(Stage()) && Idle() == 0
    {
      hide Longest, Chain;
      ChainGrows(magicAt, beats, Beat(now, now, beats[|beats| - 1].stage));
      beats := beats + [Beat(now, now, beats[|beats| - 1].stage)];
    }

    /** `wait_bit`: a look every millisecond, each with a bump: `looks` of them in vain, and then one that
        showed the bit, or none once the whole time has passed. */
    method WaitBit(ms: nat) returns (ok: bool, ghost looks: nat)
      requires Running() && Idle() + 3 * ACCESS + 1000 <= Longest(Stage())
      requires 3 * ACCESS + 1000 <= Longest(Stage())
      modifies `now, `at, `beats
      ensures Running() && Stage() == old(Stage()) && magicAt == old(magicAt)
      ensures Idle() <= old(Idle()) + 2 * ACCESS
      ensures old(now) <= now <= old(now) + ms * 1000 + 4 * ACCESS + 1000
      ensures NoneShown(old(at) + 1, 3, looks) && at == old(at) + 1 + 3 * looks + (if ok then 1 else 0)
      ensures if ok then bus.shows(at - 1) else looks > 0 && now >= old(now) + ms * 1000
    {
      hide Longest, Chain, Comes, NoneShown;
      var _ := Access();
      var start := now;
      looks := 0;
      NothingShown(at, 3);
      while true
        invariant Running() && Stage() == old(Stage()) && magicAt == old(magicAt)
        invariant old(now) <= start <= old(now) + ACCESS && start <= now
        invariant now == start || now - start < ms * 1000
        invariant Idle() <= (if now == start then old(Idle()) + ACCESS else ACCESS)
        invariant at == old(at) + 1 + 3 * looks && NoneShown(old(at) + 1, 3, looks)
        decreases start + ms * 1000 + 1 - now
      {
        ok := Access();
        if ok {
          return;
        }
        ShownNext(old(at) + 1, 3, looks);
        looks := looks + 1;
        Delay(1000);
        Bump();
        var _ := Access();
        if now - start >= ms * 1000 {
          return;
        }
      }
    }

    /** None of the first n looks, every so many accesses from `first` on, showed what was looked for. */
    ghost predicate NoneShown(first: nat, every: nat, n: nat) {
      forall j :: 0 <= j < n ==> !bus.shows(Nth(first, every, j))
    }

    ghost function Nth(first: nat, every: nat, j: nat): nat {
      first + every * j
    }

    lemma NothingShown(first: nat, every: nat)
      ensures NoneShown(first, every, 0)
    {
    }

    lemma ShownNext(first: nat, every: nat, n: nat)
      requires NoneShown(first, every, n) && !bus.shows(Nth(first, every, n))
      ensures NoneShown(first, every, n + 1)
    {
    }

    // ----------------------------------------------------- the bring-up blocks

    /** What a block may do: run on, keep the stage and the windows, and add so much to the clock and to
        the time since the last heartbeat. */
    twostate predicate Ran(time: nat, idle: nat)
      reads this
    {
      && old(Running()) && Running() && Stage() == old(Stage()) && magicAt == old(magicAt)
      && old(now) <= now <= old(now) + time && Idle() <= old(Idle()) + idle
    }

    /** There is room in the window for so much more before the next heartbeat. */
    ghost predicate Room(idle: nat)
      reads this
    {
      Running() && Idle() + idle + ACCESS <= Longest(Stage())
    }

    /** Some accesses, then a quarter of a second's wait for their effect. */
    method Await(n: nat) returns (ok: bool)
      requires Room(n * ACCESS + 2000 + 2 * ACCESS)
      modifies `now, `at, `beats
      ensures Ran(253000 + n * ACCESS, (n + 2) * ACCESS)
    {
      hide Chain, Longest, Comes;
      Accesses(n);
      ghost var looks;
      ok, looks := WaitBit(250);
    }

    /** `stub_plle_enable`: two locks, then the clock handed over. */
    method PlleEnable() returns (ok: bool)
      requires Room(25000)
      modifies `now, `at, `beats
      ensures Ran(2 * 253000 + 20000, 40 * ACCESS)
    {
      hide Chain, Longest, Comes;
      Accesses(2);
      Delay(5);
      ok := Await(1);
      if !ok {
        return;
      }
      Accesses(4);
      Delay(5);
      ok := Await(6);
      if !ok {
        return;
      }
      HandOverPlle();
    }

    method HandOverPlle()
      requires Running()
      modifies `now, `at
      ensures Running() && old(now) <= now <= old(now) + 2 + 11 * ACCESS
    {
      hide Chain, Longest, Comes;
      Accesses(2);
      Delay(1);
      Accesses(6);
      Delay(1);
      Accesses(1);
    }

    /** `stub_uphy_enable`: the calibration, the lock, the resistors. */
    method UphyEnable() returns (ok: bool)
      requires Room(42000)
      modifies `now, `at, `beats
      ensures Ran(5 * 253000 + 60000, 80 * ACCESS)
    {
      hide Chain, Longest, Comes;
      ok := UphyCalibrate();
      if !ok {
        return;
      }
      ok := Await(2);
      if !ok {
        return;
      }
      ok := Await(2);
      if !ok {
        return;
      }
      ok := Await(2);
      if !ok {
        return;
      }
      Accesses(8);
      Delay(1);
      Accesses(5);
    }

    method UphyCalibrate() returns (ok: bool)
      requires Room(24000)
      modifies `now, `at, `beats
      ensures Ran(2 * 253000 + 40000, 45 * ACCESS)
    {
      hide Chain, Longest, Comes;
      Accesses(25);
      Delay(1);
      ok := Await(4);
      if !ok {
        return;
      }
      ok := Await(2);
    }

    /** The magic and the first breadcrumb. */
    method Enter()
      requires Completes(bus)
      modifies this
      ensures Running() && Stage() == 1 && Idle() == 0 && magicAt == old(now)
      ensures old(now) <= now <= old(now) + ACCESS
    {
      magicAt := now;
      now := now + bus.cost(at);
      at := at + 1;
      beats := [Beat(magicAt, now, 1)];
    }

    /** The PHY with its two probes. */
    method BringUpPhy()
      requires Room(70000)
      modifies `now, `at, `beats
      ensures Ran(1900000, 130 * ACCESS)
    {
      hide Chain, Longest, Comes;
      Accesses(1);
      var _ := PlleEnable();
      Accesses(2);
      var _ := UphyEnable();
      Accesses(1);
    }

    /** MSELECT and the AFI window, each named before it is touched; live when the witness took. */
    method ProbeAperture()
      requires Room(0) && Stage() == 1
      modifies `now, `at, `beats, `live
      ensures Running() && Stage() == 5 && Idle() <= 5 * ACCESS && magicAt == old(magicAt)
      ensures old(now) <= now <= old(now) + 13 * ACCESS && at > 0 && live == bus.shows(at - 1)
    {
      hide Chain, Longest, Comes;
      LongestIs();
      ProbeMselect();
      Step(4);
      Accesses(1);
      Step(5);
      Accesses(3);
      live := Access();
    }

    method ProbeMselect()
      requires Room(0) && Stage() == 1
      modifies `now, `at, `beats
      ensures Running() && Stage() == 3 && Idle() <= 2 * ACCESS && magicAt == old(magicAt)
      ensures old(now) <= now <= old(now) + 6 * ACCESS
    {
      hide Chain, Longest, Comes;
      LongestIs();
      Step(2);
      Accesses(1);
      Step(3);
      Accesses(2);
    }

    /** The address translations, then the controller, up to the reset pulse of port 0. */
    method EnableController()
      requires Room(0) && Stage() == 5
      modifies `now, `at, `beats
      ensures Running() && Stage() == 7 && Idle() <= 20000 && magicAt == old(magicAt)
      ensures old(now) <= now <= old(now) + 60000
    {
      hide Chain, Longest, Comes;
      LongestIs();
      Step(6);
      Accesses(28);
      Step(7);
      Accesses(19);
      Delay(2000);
      Accesses(6);
    }

    /** Port 0 tried three times, then shut. */
    method TryPort0()
      requires Running() && Stage() == 7 && Idle() <= 20000
      modifies `now, `at, `beats
      ensures Running() && Stage() == 7 && magicAt == old(magicAt) && Idle() <= 30000
      ensures old(now) <= now <= old(now) + 2130000 && at >= 5
      ensures bus.shows(at - 5) || now >= old(now) + 3 * 402000
    {
      hide Chain, Longest, Comes;
      var up := false;
      for retry := 0 to 3
        invariant Running() && Stage() == 7 && magicAt == old(magicAt) && Idle() <= 20000
        invariant old(now) + retry * 402000 <= now <= old(now) + retry * 706000 && at >= old(at) + retry
      {
        up := Port0Poll();
        if up {
          break;
        }
        Accesses(2);
        Delay(2000);
        Accesses(2);
      }
      Accesses(4);
    }

    /** A breadcrumb every two milliseconds until the lanes are up. */
    method Port0Poll() returns (up: bool)
      requires Running() && Stage() == 7 && Idle() <= 20000
      modifies `now, `at, `beats
      ensures Running() && Stage() == 7 && magicAt == old(magicAt) && Idle() <= (if up then 20500 else 3000)
      ensures old(now) <= now <= old(now) + 200 * 3500
      ensures at > old(at) && if up then bus.shows(at - 1) else now >= old(now) + 200 * 2000
    {
      hide Chain, Longest, Comes;
      LongestIs();
      for i := 0 to 200
        invariant Running() && Stage() == 7 && magicAt == old(magicAt) && Idle() <= (if i == 0 then 20000 else 3000)
        invariant old(now) + i * 2000 <= now <= old(now) + i * 3500 && at >= old(at) + i
      {
        up := Access();
        if up {
          return;
        }
        Step(7);
        Delay(2000);
      }
      up := false;
    }

    /** Root port 1: its clock, its reset and the datasheet's waits. */
    method EnablePort1()
      requires Running() && Stage() == 7 && Idle() <= 30000
      modifies `now, `at, `beats
      ensures Running() && Stage() == 9 && magicAt == old(magicAt) && Idle() == 0
      ensures old(now) + 22000 <= now <= old(now) + 40000
    {
      hide Chain, Longest, Comes;
      LongestIs();
      Step(8);
      PulsePort1();
      Step(9);
    }

    method PulsePort1()
      requires Running()
      modifies `now, `at
      ensures Running() && old(now) + 22000 <= now <= old(now) + 30500
    {
      hide Chain, Longest, Comes;
      Accesses(3);
      Delay(12000);
      Accesses(2);
      Delay(2000);
      Accesses(6);
      Delay(8000);
      Accesses(2);
    }

    /** The two waits for the link: 200 looks each, 2 ms apart, and no heartbeat. `down` looks showed no link
        and then `idle` ones a link that was not active; one more look decides. */
    method WaitForLink() returns (ghost down: nat, ghost idle: nat)
      requires Running() && Stage() == 9 && Idle() == 0
      modifies `now, `at, `linked
      ensures Running() && Stage() == 9
      ensures old(now) + 2000 * (down + idle) <= now <= old(now) + 1202000
      ensures down <= 200 && NoneShown(old(at) + 2, 2, down)
      ensures down == 200 ==> idle == 0 && at == old(at) + 403
      ensures down < 200 ==>
                var first := old(at) + 3 + 2 * down;
                && bus.shows(first - 1) && idle <= 200 && NoneShown(first, 2, idle)
                && (idle < 200 ==> bus.shows(first + 2 * idle) && at == first + 2 * idle + 2)
                && (idle == 200 ==> at == first + 401)
      ensures linked == bus.shows(at - 1)
    {
      hide Chain, Longest, Comes, NoneShown;
      Accesses(2);
      var up;
      up, down := LookForLink();
      idle := 0;
      if up {
        var active;
        active, idle := LookForLink();
      }
      linked := Access();
    }

    /** At most 200 looks, 2 ms apart, until one shows it. */
    method LookForLink() returns (shown: bool, ghost n: nat)
      requires Running()
      modifies `now, `at
      ensures Running() && old(now) + 2000 * n <= now <= old(now) + 200 * (2000 + 2 * ACCESS)
      ensures n <= 200 && NoneShown(old(at), 2, n) && (shown <==> n < 200)
      ensures at == old(at) + 2 * n + (if shown then 1 else 0) && (shown ==> bus.shows(at - 1))
    {
      hide Chain, Longest, Comes, NoneShown;
      shown, n := false, 0;
      NothingShown(at, 2);
      for i := 0 to 200
        invariant Running() && n == i && at == old(at) + 2 * i && NoneShown(old(at), 2, n) && !shown
        invariant old(now) + 2000 * i <= now <= old(now) + i * (2000 + 2 * ACCESS)
      {
        shown := Access();
        if shown {
          return;
        }
        ShownNext(old(at), 2, n);
        n := n + 1;
        Delay(2000);
      }
    }

    /** `cfg_wr_verify`: up to 25 rounds, a bump before each wait of 20 ms. */
    method WriteAndVerify()
      requires Running() && Stage() == 11 && Idle() <= 10000
      modifies `now, `at, `beats
      ensures Running() && Stage() == 11 && magicAt == old(magicAt) && Idle() <= 25000
      ensures old(now) <= now <= old(now) + 25 * 22000 && at > old(at)
      ensures bus.shows(at - 1) || now >= old(now) + 25 * 20000
    {
      hide Chain, Longest, Comes;
      LongestIs();
      for round := 0 to 25
        invariant Running() && Stage() == 11 && magicAt == old(magicAt) && Idle() <= 20500
        invariant old(now) + round * 20000 <= now <= old(now) + round * 22000 && at >= old(at)
        invariant round == 0 || at > old(at)
      {
        Accesses(2);
        var agrees := Access();
        if agrees {
          break;
        }
        Bump();
        Delay(20000);
      }
    }

    /** The bridge, the baseline reads of the endpoint, and its command register. */
    method ReadEndpoint()
      requires Running() && Stage() == 9 && Idle() <= 1203000
      modifies `now, `at, `beats, `known
      ensures Running() && Stage() == (if known then 11 else 10) && magicAt == old(magicAt) && Idle() <= 40000
      ensures old(now) <= now <= old(now) + 650000
    {
      hide Chain, Longest, Comes;
      LongestIs();
      Step(10);
      Accesses(26);
      Step(10);
      Accesses(33);
      Delay(1000);
      Accesses(5);
      known := Access();
      if known {
        Step(11);
        Accesses(8);
        WriteAndVerify();
        Accesses(3);
      }
    }

    /** The controller, both ports, and the endpoint behind the second when its link came up. */
    method BringUpLink()
      requires Room(0) && Stage() == 5
      modifies `now, `at, `beats, `linked, `known
      ensures Running() && Stage() == (if !linked then 9 else if known then 11 else 10) && magicAt == old(magicAt)
      ensures Idle() + ACCESS <= Longest(Stage())
      ensures old(now) <= now <= old(now) + 60000 + 2130000 + 40000 + 1202000 + 650000 + 3 * ACCESS
    {
      hide Chain, Longest, Comes;
      LongestIs();
      EnableController();
      TryPort0();
      EnablePort1();
      ghost var _, _ := WaitForLink();
      if linked {
        ReadEndpoint();
      }
      Accesses(3);
    }

    /** `cpu_stub_main`, to the store of done. When every access completes, no two heartbeats are
        further apart than the bound of the stage named by the first, and all of it takes at most six
        seconds. */
    method Run() returns (t: Timeline)
      requires Completes(bus)
      modifies this
      ensures Completed(t) && t.magicAt == old(now)
      ensures |t.beats| >= 2 && t.beats[0].stage == 1 && t.beats[|t.beats| - 1].stage == 12
      ensures t.beats[|t.beats| - 2].stage == if !live then 5 else if !linked then 9 else if known then 11 else 10
    {
      hide Chain, Longest, Comes;
      LongestIs();
      Enter();
      BringUpPhy();
      ProbeAperture();
      if live {
        BringUpLink();
      }
      Step(12);
      ChainEnds(magicAt, beats, now);
      t := Timeline(magicAt, beats, now);
    }

    lemma LongestIs()
      ensures Longest(1) == Longest(2) == Longest(3) == Longest(4) == 75000
      ensures Longest(5) == Longest(6) == Longest(7) == Longest(8) == 75000
      ensures Longest(9) == 1204000 && Longest(10) == Longest(11) == Longest(12) == 45000
    {
    }
  }
}