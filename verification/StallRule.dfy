/** When the stall rule is right about CPU0 (probe_wifi.c against cpu_stub/stub.c), and when it is not.

    The stub's side is a timeline: when it wrote the magic, each heartbeat with the time its stage was
    stored, and when it wrote done. A poll shows what had been stored by then. */
module StallRule {
  import opened Bits
  import opened Supervisor

  /** One heartbeat: its stage stored first, then the count. Bumps inside a wait store no stage. */
  datatype Beat = Beat(stored: nat, at: nat, stage: nat)

  datatype Timeline = Timeline(magicAt: nat, beats: seq<Beat>, doneAt: nat)

  /** Program order. */
  ghost predicate Ordered(t: Timeline) {
    && t.beats != [] && t.magicAt <= t.beats[0].stored && t.beats[|t.beats| - 1].at <= t.doneAt
    && (forall k :: 0 <= k < |t.beats| ==> t.beats[k].stored <= t.beats[k].at)
    && (forall k :: 0 < k < |t.beats| ==> t.beats[k - 1].at <= t.beats[k].stored)
  }

  /** No heartbeat, and not the end, is further from the one before than that one's window allows. */
  ghost predicate InWindow(t: Timeline, slack: nat) {
    && t.beats != []
    && (forall k :: 0 < k < |t.beats| ==> t.beats[k].at + slack <= t.beats[k - 1].at + Window(t.beats[k - 1].stage))
    && t.doneAt + slack <= t.beats[|t.beats| - 1].at + Window(t.beats[|t.beats| - 1].stage)
  }

  /** What the mailbox holds at a time. */
  ghost predicate Shows(t: Timeline, s: nat, m: Snap) {
    && (m.magic <==> t.magicAt <= s) && (m.done <==> t.doneAt <= s)
    && m.heartbeat <= |t.beats|
    && (m.heartbeat > 0 ==> t.beats[m.heartbeat - 1].at <= s)
    && (m.heartbeat < |t.beats| ==> s < t.beats[m.heartbeat].at)
    && m.stage == (if m.heartbeat < |t.beats| && t.beats[m.heartbeat].stored <= s then t.beats[m.heartbeat].stage
                   else if m.heartbeat > 0 then t.beats[m.heartbeat - 1].stage else 0)
  }

  /** Not between the stores of one step, nor between the magic and the first heartbeat. */
  ghost predicate Whole(t: Timeline, s: nat, m: Snap) {
    && (m.heartbeat < |t.beats| ==> s < t.beats[m.heartbeat].stored)
    && (m.heartbeat == 0 ==> s < t.magicAt)
  }

  /** Every poll shows the mailbox as it is at its time, reads its clocks within `slack` of it, and the
      next one comes at least half a millisecond later. */
  ghost predicate Samples(t: Timeline, polls: nat -> Poll, when: nat -> nat, slack: nat) {
    && (forall i: nat :: Shows(t, when(i), polls(i).snap))
    && (forall i: nat :: when(i) <= polls(i).moved <= polls(i).checked <= when(i) + slack)
    && (forall i: nat :: when(i) + POLL_US <= when(i + 1))
  }

  lemma MailboxIsDetermined(t: Timeline, s: nat, m: Snap, n: Snap)
    requires Ordered(t) && Shows(t, s, m) && Shows(t, s, n)
    ensures m == n
  {
    if m.heartbeat < n.heartbeat {
      BeatsAscend(t, m.heartbeat, n.heartbeat - 1);
    } else if n.heartbeat < m.heartbeat {
      BeatsAscend(t, n.heartbeat, m.heartbeat - 1);
    }
  }

  lemma {:induction false} BeatsAscend(t: Timeline, j: nat, k: nat)
    requires Ordered(t) && j <= k < |t.beats|
    ensures t.beats[j].at <= t.beats[k].at
    decreases k
  {
    if j < k {
      BeatsAscend(t, j, k - 1);
      assert t.beats[k - 1].at <= t.beats[k].stored <= t.beats[k].at;
    }
  }

  // ------------------------------------------------------- no false stall

  /** What the wait remembers between polls agrees with the timeline. */
  ghost predicate Remembers(t: Timeline, lastHb: nat, lastMove: nat, alive: bool) {
    && lastHb <= |t.beats|
    && (lastHb > 0 ==> t.beats[lastHb - 1].at <= lastMove)
    && (alive ==> lastHb > 0)
  }

  lemma PollRemembers(t: Timeline, s: nat, slack: nat, p: Poll, lastHb: nat, lastMove: nat, alive: bool)
    requires Ordered(t) && InWindow(t, slack) && Shows(t, s, p.snap) && Whole(t, s, p.snap)
    requires s <= p.moved <= p.checked <= s + slack
    requires Remembers(t, lastHb, lastMove, alive) && lastMove <= s
    ensures var move := if p.snap.heartbeat != lastHb then p.moved else lastMove;
            && Remembers(t, p.snap.heartbeat, move, alive || p.snap.magic)
            && (!p.snap.done && (alive || p.snap.magic) ==> Elapsed(p.checked, move) <= Window(p.snap.stage))
            && move <= p.checked
  {
    var hb := p.snap.heartbeat;
    if alive && hb == 0 {
      assert t.magicAt <= t.beats[0].stored <= t.beats[0].at;
      BeatsAscend(t, 0, lastHb - 1);
    }
  }

  /** A timeline that keeps its windows is never called stalled by polls that see whole steps. */
  lemma {:induction false} NoFalseStall(t: Timeline, polls: nat -> Poll, when: nat -> nat, slack: nat,
                                        i: nat, n: nat, lastHb: nat, lastMove: nat, alive: bool)
    requires Ordered(t) && InWindow(t, slack) && Samples(t, polls, when, slack) && slack <= POLL_US
    requires forall j :: i <= j < i + n ==> Whole(t, when(j), polls(j).snap)
    requires Remembers(t, lastHb, lastMove, alive) && lastMove <= when(i)
    ensures Watch(polls, i, n, lastHb, lastMove, alive).ending != Stalled
    decreases n
  {
    hide Ordered, InWindow, Shows, Whole, Remembers, Elapsed, Window;
    if n > 0 {
      var p := polls(i);
      PollRemembers(t, when(i), slack, p, lastHb, lastMove, alive);
      assert when(i) + POLL_US <= when(i + 1);
      NoFalseStall(t, polls, when, slack, i + 1, n - 1, p.snap.heartbeat,
                   if p.snap.heartbeat != lastHb then p.moved else lastMove, alive || p.snap.magic);
    }
  }

  lemma {:induction false} PollsSpread(polls: nat -> Poll, when: nat -> nat, t: Timeline, slack: nat, i: nat, k: nat)
    requires Samples(t, polls, when, slack)
    ensures when(i) + POLL_US * k <= when(i + k)
    decreases k
  {
    if k > 0 {
      PollsSpread(polls, when, t, slack, i, k - 1);
      assert when(i + (k - 1)) + POLL_US <= when(i + (k - 1) + 1);
    }
  }

  /** If done is stored before the last poll, the wait does not run out. */
  lemma {:induction false} EndsByDone(t: Timeline, polls: nat -> Poll, when: nat -> nat, slack: nat,
                                      i: nat, n: nat, lastHb: nat, lastMove: nat, alive: bool)
    requires Samples(t, polls, when, slack) && n > 0 && t.doneAt <= when(i + n - 1)
    ensures Watch(polls, i, n, lastHb, lastMove, alive).ending != RanOut
    decreases n
  {
    var p := polls(i);
    assert Shows(t, when(i), p.snap);
    if n > 1 {
      EndsByDone(t, polls, when, slack, i + 1, n - 1, p.snap.heartbeat,
                 if p.snap.heartbeat != lastHb then p.moved else lastMove, alive || p.snap.magic);
    }
  }

  /** The wait's whole promise: a stub whose timeline keeps its windows and ends within the ceiling of
      twenty seconds is seen to finish, by polls that see whole steps. */
  lemma HealthyStubFinishes(t: Timeline, polls: nat -> Poll, when: nat -> nat, slack: nat, begun: nat)
    requires Ordered(t) && InWindow(t, slack) && Samples(t, polls, when, slack) && slack <= POLL_US
    requires forall j :: 0 <= j < CEILING ==> Whole(t, when(j), polls(j).snap)
    requires begun <= when(0) && t.doneAt <= when(0) + POLL_US * (CEILING - 1)
    ensures Watch(polls, 0, CEILING, 0, begun, false).ending == Finished
  {
    hide Watch, Ordered, InWindow, Shows, Whole;
    PollsSpread(polls, when, t, slack, 0, CEILING - 1);
    NoFalseStall(t, polls, when, slack, 0, CEILING, 0, begun, false);
    EndsByDone(t, polls, when, slack, 0, CEILING, 0, begun, false);
  }

  // --------------------------------------------------- exactly when it stalls

  /** The heartbeat the wait remembers when poll i comes. */
  function HbBefore(polls: nat -> Poll, i: nat): nat {
    if i == 0 then 0 else polls(i - 1).snap.heartbeat
  }

  /** When the heartbeat that poll j shows was first noted. */
  function Noted(polls: nat -> Poll, begun: nat, j: nat): nat
    decreases j
  {
    if polls(j).snap.heartbeat != HbBefore(polls, j) then polls(j).moved
    else if j == 0 then begun
    else Noted(polls, begun, j - 1)
  }

  function MoveBefore(polls: nat -> Poll, begun: nat, i: nat): nat {
    if i == 0 then begun else Noted(polls, begun, i - 1)
  }

  /** Poll j lands inside a step, or between the magic and the first heartbeat, and holds the window of
      the stage it sees against a heartbeat noted longer ago than that. */
  ghost predicate StallsAt(t: Timeline, polls: nat -> Poll, when: nat -> nat, begun: nat, j: nat) {
    && !Whole(t, when(j), polls(j).snap) && !polls(j).snap.done && polls(j).snap.magic
    && Elapsed(polls(j).checked, Noted(polls, begun, j)) > Window(polls(j).snap.stage)
  }

  /** The mailbox only gains: more heartbeats, the magic and done for good. */
  lemma {:induction false} MailboxGains(t: Timeline, polls: nat -> Poll, when: nat -> nat, slack: nat, i: nat, j: nat)
    requires Ordered(t) && Samples(t, polls, when, slack) && i <= j
    ensures when(i) <= when(j)
    ensures polls(i).snap.heartbeat <= polls(j).snap.heartbeat
    ensures polls(i).snap.magic ==> polls(j).snap.magic
    ensures polls(i).snap.done ==> polls(j).snap.done
  {
    PollsSpread(polls, when, t, slack, i, j - i);
    assert Shows(t, when(i), polls(i).snap) && Shows(t, when(j), polls(j).snap);
    var a, b := polls(i).snap.heartbeat, polls(j).snap.heartbeat;
    if b < a {
      BeatsAscend(t, b, a - 1);
    }
  }

  lemma {:induction false} NotedIsAfter(t: Timeline, polls: nat -> Poll, when: nat -> nat, slack: nat,
                                        begun: nat, j: nat)
    requires Ordered(t) && Samples(t, polls, when, slack) && slack <= POLL_US && begun <= when(0)
    ensures Noted(polls, begun, j) <= polls(j).checked
    ensures polls(j).snap.heartbeat > 0 ==>
              t.beats[polls(j).snap.heartbeat - 1].at <= Noted(polls, begun, j)
    decreases j
  {
    hide Ordered;
    assert Shows(t, when(j), polls(j).snap) && when(j) <= polls(j).moved;
    if j > 0 {
      NotedIsAfter(t, polls, when, slack, begun, j - 1);
      assert when(j - 1) + POLL_US <= when(j - 1 + 1);
    }
  }

  /** A poll that sees whole steps never stalls a timeline that keeps its windows. */
  lemma WholePollIsQuiet(t: Timeline, polls: nat -> Poll, when: nat -> nat, slack: nat, begun: nat, j: nat)
    requires Ordered(t) && InWindow(t, slack) && Samples(t, polls, when, slack) && slack <= POLL_US
    requires begun <= when(0) && Whole(t, when(j), polls(j).snap)
    requires polls(j).snap.magic && !polls(j).snap.done
    ensures Elapsed(polls(j).checked, Noted(polls, begun, j)) <= Window(polls(j).snap.stage)
  {
    hide Noted;
    var p := polls(j);
    assert Shows(t, when(j), p.snap) && p.checked <= when(j) + slack;
    NotedIsAfter(t, polls, when, slack, begun, j);
    if p.snap.heartbeat < |t.beats| && p.snap.heartbeat > 0 {
      assert t.beats[p.snap.heartbeat].at + slack
          <= t.beats[p.snap.heartbeat - 1].at + Window(t.beats[p.snap.heartbeat - 1].stage);
    }
  }

  lemma {:induction false} StalledIffFrom(t: Timeline, polls: nat -> Poll, when: nat -> nat, slack: nat, begun: nat,
                                          i: nat, n: nat, alive: bool)
    requires Ordered(t) && InWindow(t, slack) && Samples(t, polls, when, slack) && slack <= POLL_US
    requires begun <= when(0) && (alive ==> i > 0 && polls(i - 1).snap.magic)
    ensures Watch(polls, i, n, HbBefore(polls, i), MoveBefore(polls, begun, i), alive).ending == Stalled
       <==> exists j :: i <= j < i + n && StallsAt(t, polls, when, begun, j)
    decreases n
  {
    hide Ordered, InWindow, Samples, Whole, Elapsed, Window;
    if n > 0 {
      var p := polls(i);
      if alive {
        MailboxGains(t, polls, when, slack, i - 1, i);
      }
      if p.snap.done {
        forall j | i <= j < i + n
          ensures !StallsAt(t, polls, when, begun, j)
        {
          MailboxGains(t, polls, when, slack, i, j);
        }
      } else if p.snap.magic && Elapsed(p.checked, Noted(polls, begun, i)) > Window(p.snap.stage) {
        if Whole(t, when(i), p.snap) {
          WholePollIsQuiet(t, polls, when, slack, begun, i);
        }
        assert StallsAt(t, polls, when, begun, i);
      } else {
        StalledIffFrom(t, polls, when, slack, begun, i + 1, n - 1, p.snap.magic);
        assert !StallsAt(t, polls, when, begun, i);
      }
    }
  }

  /** A stub that keeps its windows is called stalled exactly when some poll, before it is done, lands
      between two stores that belong together and finds the last heartbeat noted longer ago than the
      window of the stage it sees. */
  lemma StalledIff(t: Timeline, polls: nat -> Poll, when: nat -> nat, slack: nat, begun: nat)
    requires Ordered(t) && InWindow(t, slack) && Samples(t, polls, when, slack) && slack <= POLL_US
    requires begun <= when(0)
    ensures Watch(polls, 0, CEILING, 0, begun, false).ending == Stalled
       <==> exists j :: 0 <= j < CEILING && StallsAt(t, polls, when, begun, j)
  {
    hide Watch, Ordered, InWindow, Samples, StallsAt;
    StalledIffFrom(t, polls, when, slack, begun, 0, CEILING, false);
  }

  lemma {:induction false} NothingNoted(t: Timeline, polls: nat -> Poll, when: nat -> nat, slack: nat,
                                        begun: nat, j: nat)
    requires Ordered(t) && Samples(t, polls, when, slack) && polls(j).snap.heartbeat == 0
    ensures Noted(polls, begun, j) == begun
    decreases j
  {
    hide Ordered, Samples;
    if j > 0 {
      MailboxGains(t, polls, when, slack, j - 1, j);
      NothingNoted(t, polls, when, slack, begun, j - 1);
    }
  }

  /** The gap before the first heartbeat: a poll that sees the magic alone calls a stub that took over
      two seconds to start stalled, whatever it does next. */
  lemma MagicAloneStalls(t: Timeline, polls: nat -> Poll, when: nat -> nat, slack: nat, begun: nat, j: nat)
    requires Ordered(t) && InWindow(t, slack) && Samples(t, polls, when, slack) && slack <= POLL_US
    requires begun <= when(0) && j < CEILING
    requires polls(j).snap.magic && polls(j).snap.heartbeat == 0
    requires Elapsed(polls(j).checked, begun) > Window(polls(j).snap.stage)
    ensures Watch(polls, 0, CEILING, 0, begun, false).ending == Stalled
  {
    hide Watch, Noted, Elapsed, Window;
    assert Shows(t, when(j), polls(j).snap);
    assert t.beats[0].at <= t.doneAt by {
      BeatsAscend(t, 0, |t.beats| - 1);
    }
    NothingNoted(t, polls, when, slack, begun, j);
    assert StallsAt(t, polls, when, begun, j);
    StalledIff(t, polls, when, slack, begun);
  }

  // -------------------------------------------------------------- a dead stub

  /** A stub that has reported in and then stores nothing more is always caught: the wait ends as
      stalled, within its window and one poll of the last heartbeat noted. */
  lemma {:induction false} DeadStubIsCaught(polls: nat -> Poll, i: nat, n: nat, m: Snap, lastMove: nat, gap: nat)
    requires m.magic && !m.done && Window(m.stage) + gap < WORD
    requires forall j: nat :: i <= j < i + n ==> polls(j).snap == m
    requires forall j: nat :: i <= j && j + 1 < i + n ==>
               polls(j).checked + POLL_US <= polls(j + 1).checked <= polls(j).checked + gap
    requires n > 0 && lastMove <= polls(i).checked <= lastMove + Window(m.stage) + gap
    requires polls(i).checked + POLL_US * (n - 1) > lastMove + Window(m.stage)
    ensures var v := Watch(polls, i, n, m.heartbeat, lastMove, true);
            && v.ending == Stalled && i < v.polls <= i + n
            && Window(m.stage) == (if m.stage < 10 then 2000000 else 300000)
            && lastMove + Window(m.stage) < polls(v.polls - 1).checked <= lastMove + Window(m.stage) + gap
    decreases n
  {
    WindowIs(m.stage);
    hide Window;
    var now := polls(i).checked;
    assert polls(i).snap == m;
    Whole32(now, lastMove);
    if now <= lastMove + Window(m.stage) {
      assert polls(i + 1).snap == m && now + POLL_US <= polls(i + 1).checked <= now + gap;
      DeadStubIsCaught(polls, i + 1, n - 1, m, lastMove, gap);
    }
  }

  /** Two seconds before the configuration stage, three tenths from it on. */
  lemma WindowIs(stage: nat)
    ensures Window(stage) == if stage < 10 then 2000000 else 300000
  {
  }

  /** A stub that never reports in is waited for through all 40000 polls, and is not called stalled. */
  lemma SilentRunsOut(polls: nat -> Poll, begun: nat)
    requires forall j: nat :: j < 40000 ==> !polls(j).snap.magic && !polls(j).snap.done
    ensures Watch(polls, 0, CEILING, 0, begun, false) == Verdict(false, RanOut, 40000)
  {
    hide Watch;
    SilentFrom(polls, 0, CEILING, 0, begun);
  }

  lemma {:induction false} SilentFrom(polls: nat -> Poll, i: nat, n: nat, lastHb: nat, lastMove: nat)
    requires forall j: nat :: j < i + n ==> !polls(j).snap.magic && !polls(j).snap.done
    ensures Watch(polls, i, n, lastHb, lastMove, false) == Verdict(false, RanOut, i + n)
    decreases n
  {
    if n > 0 {
      var p := polls(i);
      SilentFrom(polls, i + 1, n - 1, p.snap.heartbeat, if p.snap.heartbeat != lastHb then p.moved else lastMove);
    }
  }

  lemma Whole32(now: nat, since: nat)
    requires since <= now < since + WORD
    ensures Elapsed(now, since) == now - since
  {
  }
}
