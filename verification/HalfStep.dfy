/** The polls that call a healthy stub dead (probe_wifi.c:538-540 against cpu_stub/stub.c): which steps
    they can fall in, and a run with one such poll. */
module HalfStep {
  import opened Bits
  import opened Supervisor
  import opened StallRule
  import opened CpuStub

  /** A run of the stub whose accesses complete is called stalled only by a poll that sees the magic and
      no heartbeat yet, or one inside the step that ends the wait for the link. */
  lemma CompletedStallsOnlyInTwoPlaces(t: Timeline, polls: nat -> Poll, when: nat -> nat, begun: nat)
    requires Completed(t) && Samples(t, polls, when, SLACK) && begun <= when(0)
    requires Watch(polls, 0, CEILING, 0, begun, false).ending == Stalled
    ensures exists j :: 0 <= j < CEILING && StallsAt(t, polls, when, begun, j)
              && var hb := polls(j).snap.heartbeat;
                 hb <= |t.beats| && (hb == 0 || t.beats[hb - 1].stage == 9)
  {
    hide Watch, Ordered, InWindow, Samples, StallsAt;
    StalledIff(t, polls, when, SLACK, begun);
    var j :| 0 <= j < CEILING && StallsAt(t, polls, when, begun, j);
    StallFollowsTheLink(t, polls, when, begun, j);
  }

  lemma StallFollowsTheLink(t: Timeline, polls: nat -> Poll, when: nat -> nat, begun: nat, j: nat)
    requires Completed(t) && Samples(t, polls, when, SLACK) && begun <= when(0)
    requires StallsAt(t, polls, when, begun, j)
    ensures var hb := polls(j).snap.heartbeat;
            hb <= |t.beats| && (hb == 0 || t.beats[hb - 1].stage == 9)
  {
    hide Noted, Ordered, InWindow;
    var p := polls(j);
    var hb := p.snap.heartbeat;
    assert Shows(t, when(j), p.snap) && p.checked <= when(j) + SLACK;
    if hb > 0 {
      NotedIsAfter(t, polls, when, SLACK, begun, j);
      assert t.beats[hb].at <= t.beats[hb - 1].at + Longest(t.beats[hb - 1].stage);
    }
  }

  // ------------------------------------------------------------- one such run

  /** What has been counted by a time. */
  function Counted(beats: seq<Beat>, s: nat): (n: nat)
    ensures n <= |beats|
    decreases |beats|
  {
    if beats == [] || beats[|beats| - 1].at <= s then |beats| else Counted(beats[..|beats| - 1], s)
  }

  /** The mailbox at a time. */
  function SnapAt(t: Timeline, s: nat): Snap {
    var n := Counted(t.beats, s);
    Snap(t.magicAt <= s, n, t.doneAt <= s,
         if n < |t.beats| && t.beats[n].stored <= s then t.beats[n].stage
         else if n > 0 then t.beats[n - 1].stage else 0)
  }

  lemma {:induction false} CountedBrackets(beats: seq<Beat>, s: nat)
    ensures var n := Counted(beats, s);
            (n > 0 ==> beats[n - 1].at <= s) && (n < |beats| ==> s < beats[n].at)
    decreases |beats|
  {
    if beats != [] && beats[|beats| - 1].at > s {
      CountedBrackets(beats[..|beats| - 1], s);
    }
  }

  /** Every timeline has a mailbox at every time, and `MailboxIsDetermined` says it has one. */
  lemma MailboxShows(t: Timeline, s: nat)
    ensures Shows(t, s, SnapAt(t, s))
  {
    CountedBrackets(t.beats, s);
  }

  /** A whole run: every stage from the first to the last, 0.8 s of waiting for the link, and 300 us
      between the two stores of the step that ends it. */
  const LINK_WAITER := Timeline(900, [
    Beat(900, 1000, 1), Beat(30800, 31000, 2), Beat(31800, 32000, 3), Beat(32800, 33000, 4),
    Beat(33800, 34000, 5), Beat(35800, 36000, 6), Beat(49800, 50000, 7), Beat(52800, 53000, 8),
    Beat(75800, 76000, 9), Beat(876000, 876300, 10), Beat(889800, 890000, 10), Beat(909800, 910000, 11),
    Beat(934800, 935000, 12)], 935000)

  function TimeOf(i: nat): nat {
    1050 + POLL_US * i
  }

  function PollAt(i: nat): Poll {
    Poll(SnapAt(LINK_WAITER, TimeOf(i)), TimeOf(i), TimeOf(i))
  }

  lemma BeatFollows(k: nat)
    requires 0 < k < |LINK_WAITER.beats|
    ensures var a, b := LINK_WAITER.beats[k - 1], LINK_WAITER.beats[k];
            Comes(a, b)
    ensures k != 9 ==> LINK_WAITER.beats[k].at % POLL_US == 0
                       && LINK_WAITER.beats[k].stored + 200 == LINK_WAITER.beats[k].at
  {
    assert |LINK_WAITER.beats| == 13;
    if k < 7 {
      assert k in {1, 2, 3, 4, 5, 6};
    } else {
      assert k in {7, 8, 9, 10, 11, 12};
    }
  }

  lemma LinkWaiterEnds()
    ensures |LINK_WAITER.beats| == 13 && LINK_WAITER.magicAt == 900 && LINK_WAITER.doneAt == 935000
    ensures LINK_WAITER.beats[0] == Beat(900, 1000, 1) && LINK_WAITER.beats[8] == Beat(75800, 76000, 9)
    ensures LINK_WAITER.beats[9] == Beat(876000, 876300, 10) && LINK_WAITER.beats[12] == Beat(934800, 935000, 12)
  {
  }

  lemma LinkWaiterCompletes()
    ensures Completed(LINK_WAITER)
    ensures LINK_WAITER.beats[0].stage == 1 && LINK_WAITER.beats[|LINK_WAITER.beats| - 1].stage == 12
  {
    hide LINK_WAITER, Longest, Window, Comes;
    LinkWaiterEnds();
    var beats := LINK_WAITER.beats;
    forall k | 0 < k < |beats|
      ensures Comes(beats[k - 1], beats[k])
    {
      BeatFollows(k);
    }
    ChainEnds(LINK_WAITER.magicAt, LINK_WAITER.beats, LINK_WAITER.doneAt);
  }

  lemma LinkWaiterIsSampled()
    ensures Samples(LINK_WAITER, PollAt, TimeOf, SLACK)
  {
    hide SnapAt, Shows, LINK_WAITER;
    forall i: nat
      ensures Shows(LINK_WAITER, TimeOf(i), PollAt(i).snap)
    {
      MailboxShows(LINK_WAITER, TimeOf(i));
    }
  }

  /** The polls fall 50 us after every half millisecond, and so inside no step but the tenth. */
  lemma OnlyOnePollIsInside(i: nat)
    ensures Whole(LINK_WAITER, TimeOf(i), PollAt(i).snap) <==> i != 1750
  {
    hide LINK_WAITER, SnapAt;
    var s, m := TimeOf(i), PollAt(i).snap;
    LinkWaiterEnds();
    MailboxShows(LINK_WAITER, s);
    var hb := m.heartbeat;
    if i == 1750 {
      InTheWait(s, m);
    } else if hb == 9 {
      assert s < 876300;
    } else if 0 < hb < 13 {
      BeatFollows(hb);
    }
  }

  /** While the link is waited for, the mailbox shows nine heartbeats. */
  lemma InTheWait(s: nat, m: Snap)
    requires Shows(LINK_WAITER, s, m) && 76000 <= s < 876300
    ensures m == Snap(true, 9, false, if s < 876000 then 9 else 10)
  {
    hide LINK_WAITER;
    LinkWaiterEnds();
    LinkWaiterCompletes();
    MailboxIsDetermined(LINK_WAITER, s, m, Snap(true, 9, false, if s < 876000 then 9 else 10));
  }

  /** The exception, on a run the stub can make: of all polls one falls between the two stores of the
      step that ends the wait for the link, and the run is called stalled. */
  lemma HalfAStepStalls()
    ensures Completed(LINK_WAITER)
    ensures LINK_WAITER.beats[0].stage == 1 && LINK_WAITER.beats[|LINK_WAITER.beats| - 1].stage == 12
    ensures Samples(LINK_WAITER, PollAt, TimeOf, SLACK)
    ensures forall i: nat :: i != 1750 ==> Whole(LINK_WAITER, TimeOf(i), PollAt(i).snap)
    ensures Watch(PollAt, 0, CEILING, 0, 1000, false).ending == Stalled
  {
    hide LINK_WAITER, Watch, Noted, Ordered, InWindow, SnapAt;
    LinkWaiterCompletes();
    LinkWaiterIsSampled();
    forall i: nat | i != 1750
      ensures Whole(LINK_WAITER, TimeOf(i), PollAt(i).snap)
    {
      OnlyOnePollIsInside(i);
    }
    OnlyOnePollIsInside(1750);
    MailboxShows(LINK_WAITER, TimeOf(1750));
    InTheWait(TimeOf(1750), PollAt(1750).snap);
    NotedWhileWaiting(1750);
    assert StallsAt(LINK_WAITER, PollAt, TimeOf, 1000, 1750);
    StalledIff(LINK_WAITER, PollAt, TimeOf, SLACK, 1000);
  }

  /** The ninth heartbeat was noted by the first poll after it. */
  lemma {:induction false} NotedWhileWaiting(i: nat)
    requires 150 <= i <= 1750
    ensures Noted(PollAt, 1000, i) <= 76050
    decreases i
  {
    hide LINK_WAITER, SnapAt;
    MailboxShows(LINK_WAITER, TimeOf(i));
    InTheWait(TimeOf(i), PollAt(i).snap);
    if i > 150 {
      MailboxShows(LINK_WAITER, TimeOf(i - 1));
      InTheWait(TimeOf(i - 1), PollAt(i - 1).snap);
      NotedWhileWaiting(i - 1);
    } else {
      LinkWaiterCompletes();
      LinkWaiterIsSampled();
      NotedIsAfter(LINK_WAITER, PollAt, TimeOf, SLACK, 1000, i);
    }
  }
}
