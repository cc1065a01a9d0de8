/** The two halves of the mailbox protocol together: the program of cpu_stub/stub.c under the handoff of
    probe_wifi.c. */
module HealthyHandoff {
  import opened Bits
  import opened Supervisor
  import opened StallRule
  import opened CpuStub
  import opened Handoff

  /** During a boot the mailbox shows the timeline of a run of the stub, poll by poll, and every poll sees
      whole steps. */
  ghost predicate Runs(w: World, boot: nat, t: Timeline, when: nat -> nat) {
    && Completed(t) && Samples(t, PollsOf(w, boot), when, SLACK)
    && w.begun(boot) <= when(0) && t.magicAt <= when(0) + 13000000
    && forall j :: 0 <= j < CEILING ==> Whole(t, when(j), PollsOf(w, boot)(j).snap)
  }

  /** A wait that finished was alive: done is stored after the magic. */
  lemma {:induction false} FinishedIsAlive(t: Timeline, polls: nat -> Poll, when: nat -> nat, slack: nat,
                                           i: nat, n: nat, lastHb: nat, lastMove: nat, alive: bool)
    requires Ordered(t) && Samples(t, polls, when, slack)
    ensures var v := Watch(polls, i, n, lastHb, lastMove, alive);
            v.ending == Finished ==> v.alive
    decreases n
  {
    hide Ordered, Elapsed, Window;
    if n > 0 {
      var p := polls(i);
      assert Shows(t, when(i), p.snap);
      DoneIsAfterMagic(t);
      FinishedIsAlive(t, polls, when, slack, i + 1, n - 1, p.snap.heartbeat,
                      if p.snap.heartbeat != lastHb then p.moved else lastMove, alive || p.snap.magic);
    }
  }

  lemma DoneIsAfterMagic(t: Timeline)
    requires Ordered(t)
    ensures t.magicAt <= t.doneAt
  {
    BeatsAscend(t, 0, |t.beats| - 1);
  }

  lemma HealthyVerdict(w: World, boot: nat, t: Timeline, when: nat -> nat)
    requires Runs(w, boot, t, when)
    ensures VerdictOf(w, boot).ending == Finished && VerdictOf(w, boot).alive
  {
    hide Watch, Samples, Whole, PollsOf, Ordered, InWindow;
    CompletedIsSeenToFinish(t, PollsOf(w, boot), when, w.begun(boot));
    FinishedIsAlive(t, PollsOf(w, boot), when, SLACK, 0, CEILING, 0, w.begun(boot), false);
  }

  /** When CPU0 comes up and runs its program with every access completing, and the polls see whole steps,
      the handoff makes that one boot, no diagnostic one, and ends with what the program found. */
  lemma OneBootIsEnough(w: World, log: seq<Event>, verdicts: seq<Verdict>, outcome: Outcome,
                        t: Timeline, when: nat -> nat)
    requires Handled(w, log, verdicts, outcome)
    requires w.comesUp(0) && Runs(w, 0, t, when)
    ensures Boots(log, false) == 1 && Boots(log, true) == 0
    ensures var words := Stored(w, 0, VerdictOf(w, 0).polls - 1);
            && PutMagic in words && PutDone in words
            && outcome == if LastWord(words, Probe) == 0xFFFFFFFF || LastWord(words, Witness) != 0xA5A50000
                          then NotDecoding
                          else if LastWord(words, Port) != 1 then NoLink
                          else if LastWord(words, Endpoint) == 0x43EC14E4 then Enumerated else OtherDevice
  {
    hide Runs, VerdictOf, Boots, LastWord, Stored, Handled, Reported;
    AliveMeansWritten(w, 0);
    HealthyVerdict(w, 0, t, when);
    FirstIsLast(w, log, verdicts, outcome);
    ReportedIs(Stored(w, 0, VerdictOf(w, 0).polls - 1), outcome);
  }
}
