/** The wait for CPU0 (`pcie_cpu_handoff`, probe_wifi.c): one processor leaves breadcrumbs and a
    heartbeat in shared memory, the other polls them and tells a slow one from a dead one.

    A poll reads one cache line, freshly invalidated, so its four fields are one snapshot. Stores become
    visible in program order. */
module Supervisor {
  import opened Bits

  const CEILING := 40000
  const POLL_US := 500
  const CFG_RD := 10

  /** The mailbox fields the wait looks at. */
  datatype Snap = Snap(magic: bool, heartbeat: nat, done: bool, stage: nat)

  /** One poll: what it saw, the clock when it noted a heartbeat, the clock when it checked. */
  datatype Poll = Poll(snap: Snap, moved: nat, checked: nat)

  datatype Ending = Finished | Stalled | RanOut

  datatype Verdict = Verdict(alive: bool, ending: Ending, polls: nat)

  /** The stall window: short once the configuration space is being read. */
  function Window(stage: nat): nat {
    if stage < CFG_RD then 2000000 else 300000
  }

  /** The wait with n polls to go. */
  function Watch(polls: nat -> Poll, i: nat, n: nat, lastHb: nat, lastMove: nat, alive: bool): Verdict
    decreases n
  {
    if n == 0 then Verdict(alive, RanOut, i)
    else
      var p := polls(i);
      var up := alive || p.snap.magic;
      var hb, move := p.snap.heartbeat, if p.snap.heartbeat != lastHb then p.moved else lastMove;
      if p.snap.done then Verdict(up, Finished, i + 1)
      else if up && Elapsed(p.checked, move) > Window(p.snap.stage) then Verdict(up, Stalled, i + 1)
      else Watch(polls, i + 1, n - 1, hb, move, up)
  }

  /** One poll of it. */
  lemma WatchStep(polls: nat -> Poll, i: nat, n: nat, lastHb: nat, lastMove: nat, alive: bool)
    requires n > 0
    ensures var p := polls(i);
            var up := alive || p.snap.magic;
            var move := if p.snap.heartbeat != lastHb then p.moved else lastMove;
            Watch(polls, i, n, lastHb, lastMove, alive) ==
              if p.snap.done then Verdict(up, Finished, i + 1)
              else if up && Elapsed(p.checked, move) > Window(p.snap.stage) then Verdict(up, Stalled, i + 1)
              else Watch(polls, i + 1, n - 1, p.snap.heartbeat, move, up)
  {
  }

  /** What the loop does with one poll: what it remembers, and whether and how it ends. */
  method Look(p: Poll, lastHb: nat, lastMove: nat, alive: bool)
    returns (over: bool, ending: Ending, hb: nat, move: nat, up: bool)
    ensures hb == p.snap.heartbeat && up == (alive || p.snap.magic)
    ensures move == if p.snap.heartbeat != lastHb then p.moved else lastMove
    ensures over <==> p.snap.done || (up && Elapsed(p.checked, move) > Window(p.snap.stage))
    ensures ending == if p.snap.done then Finished else Stalled
  {
    hb, move, up := lastHb, lastMove, alive;
    if p.snap.magic {
      up := true;
    }
    if p.snap.heartbeat != lastHb {
      hb := p.snap.heartbeat;
      move := p.moved;
    }
    if p.snap.done {
      return true, Finished, hb, move, up;
    }
    var window := if p.snap.stage < CFG_RD then 2000000 else 300000;
    over, ending := up && Elapsed(p.checked, move) > window, Stalled;
  }

  /** The loop as it runs. */
  method WaitForCpu(polls: nat -> Poll, begun: nat) returns (v: Verdict)
    ensures v == Watch(polls, 0, CEILING, 0, begun, false)
  {
    var lastHb, lastMove, alive, i := 0, begun, false, 0;
    while i < CEILING
      invariant i <= CEILING
      invariant Watch(polls, i, CEILING - i, lastHb, lastMove, alive) == Watch(polls, 0, CEILING, 0, begun, false)
    {
      var over, ending;
      over, ending, lastHb, lastMove, alive := Look(polls(i), lastHb, lastMove, alive);
      i := i + 1;
      if over {
        return Verdict(alive, ending, i);
      }
    }
    v := Verdict(alive, RanOut, i);
  }
}
