/** How long a run of the dock handshake can last.

    With a cable in, every phase of the handshake is left within its timeout unless the controller
    reports completions while it is busy, and phases only follow one another in order. The one way
    back is the hub request: its retry counter is cleared by the very move that retries, so a hub that
    stays busy is asked for ever. */
module DockProgress {
  import opened Division
  import opened Bits
  import opened PowerProfiles
  import opened DockSpec
  import opened DockSafety

  predicate Over(d: Dock) {
    d.state == Idle || d.state == Done || d.state == Failed
  }

  const LAST_PHASE := 22

  /** The states in order, with two of them in two parts: the wait for a plug before and after one is
      seen, and the light before and after it is lit. */
  function Phase(d: Dock): nat {
    (if d.state == WaitPlug && !d.plugSeen then 0 else Rank(d.state)) + (if d.found.ledLit then 1 else 0)
  }

  /** A state in which a command's completion is being waited for. */
  predicate CommandWait(d: Dock) {
    && !AwaitsVdm(d.state) && d.state !in {WaitPlug, RdoSent, DpHpdWait} && !Over(d)
    && !(d.state == LedAcc && d.found.ledLit)
  }

  /** A command's completion is being waited for, and this one came while the chip was busy. */
  predicate BusyCompletion(d: Dock) {
    CommandWait(d) && Has(d.alerts, AL_CMD_DONE) && Busy(d.s1)
  }

  predicate Held(d: Dock, e: Dock, p: Poll) {
    && e.state == d.state && e.since == d.since && Phase(e) == Phase(d)
    && (Elapsed(p.now, d.since) <= STEP_TIMEOUT || BusyCompletion(d))
  }

  predicate Moved(d: Dock, e: Dock, p: Poll) {
    Phase(e) > Phase(d) && (e.since == p.now || e.since == p.stamp)
  }

  predicate Retried(d: Dock, e: Dock, p: Poll) {
    d.state == HubAcc && e.state == HubSent && Phase(e) + 1 == Phase(d) && e.since == p.stamp
  }

  predicate Outcome(d: Dock, e: Dock, p: Poll) {
    Over(e) || Held(d, e, p) || Moved(d, e, p) || Retried(d, e, p)
  }

  // --------------------------------------------------------- every handler

  /** The three ways out of a handler that goes on to `t`. */
  lemma Concludes(d: Dock, e: Dock, t: State, p: Poll)
    requires t != WaitPlug && Rank(t) > Rank(d.state)
    requires || Over(e)
             || (e.state == t && e.since == p.stamp && e.found.ledLit == d.found.ledLit)
             || (e.state == d.state && e.since == d.since && e.found.ledLit == d.found.ledLit
                 && e.plugSeen == d.plugSeen && (Elapsed(p.now, d.since) <= STEP_TIMEOUT || BusyCompletion(d)))
    ensures Outcome(d, e, p)
  {
    hide Rank, Elapsed, BusyCompletion;
  }

  lemma CmdDoneWaits(d: Dock, p: Poll)
    ensures var (c, e) := CmdDone(d, p);
            && e == d.(alerts := e.alerts)
            && (c == Pending && CommandWait(d) ==> Elapsed(p.now, d.since) <= STEP_TIMEOUT || BusyCompletion(d))
  {
    hide Has, Without, Busy, LastCmdBad, Elapsed;
  }

  lemma SendMoves(d: Dock, msg: seq<Byte>, next: State, p: Poll)
    ensures var e := SendVdm(d, msg, next, p);
            Over(e) || (e.state == next && e.since == p.stamp && e.found == d.found)
  {
  }

  lemma CmdMoves(d: Dock, code: nat, next: State, p: Poll)
    ensures var e := CmdGo(d, code, next, p);
            e.state == next && e.since == p.stamp && e.found.ledLit == d.found.ledLit
  {
    hide Without;
  }

  lemma WaitPlugEnds(d: Dock, p: Poll)
    requires d.state == WaitPlug && Inserted(d.s1)
    ensures Outcome(d, OnWaitPlug(d, p), p)
  {
    hide Has, AskForPower, Offered, Elapsed;
    SameTime(p.now);
    var d1 := if d.plugSeen then d else d.(plugSeen := true, since := p.now);
    AskMoves(d1.(found := d1.found.(pdos := Offered(p))), p);
  }

  lemma AskMoves(d: Dock, p: Poll)
    requires d.state == WaitPlug
    ensures var e := AskForPower(d, p);
            Over(e) || (e.state == RdoSent && e.since == p.stamp && e.found.ledLit == d.found.ledLit)
  {
    hide Choose, DockOffer, OpMa, Rdo;
  }

  lemma SameTime(t: nat)
    ensures Elapsed(t, t) == 0
  {
  }

  lemma ContractEnds(d: Dock, p: Poll)
    requires d.state == RdoSent
    ensures Outcome(d, OnRdoSent(d, p), p)
  {
    hide Outcome, Has, Without, Decode, Word, Elapsed;
    Concludes(d, OnRdoSent(d, p), PsRdySent, p);
  }

  lemma ReplyEnds(d: Dock, p: Poll)
    requires AwaitsVdm(d.state)
    ensures Outcome(d, OnVdmSent(d, p), p)
  {
    hide Outcome, Rank, Accepting, Has, Without, Elapsed;
    AcceptingIsNext(d.state);
    Concludes(d, OnVdmSent(d, p), Accepting(d.state), p);
  }

  lemma AcceptingIsNext(s: State)
    requires AwaitsVdm(s)
    ensures Rank(Accepting(s)) == Rank(s) + 1 && Accepting(s) != WaitPlug
  {
  }

  lemma SinkReadyEnds(d: Dock, p: Poll)
    requires d.state == PsRdySent || d.state == DrSwapSent
    ensures Outcome(d, if d.state == PsRdySent then OnPsRdySent(d, p) else OnDrSwapSent(d, p), p)
  {
    hide Outcome, BusyCompletion, CmdDone, CmdGo, SendVdm, RoleOf, Elapsed, Structured;
    CmdDoneWaits(d, p);
    var d1 := CmdDone(d, p).1;
    var d2 := d1.(found := d1.found.(role := RoleOf(d1.s1)));
    SendMoves(d2, Structured(0x01, 0x80, 0xFF00), DiscIdSent, p);
    CmdMoves(d2, CMD_DR_SWAP, DrSwapSent, p);
    if d.state == DrSwapSent {
      Concludes(d, OnDrSwapSent(d, p), DiscIdSent, p);
    } else if d2.found.role == Ufp {
      Concludes(d, OnPsRdySent(d, p), DrSwapSent, p);
    } else {
      Concludes(d, OnPsRdySent(d, p), DiscIdSent, p);
    }
  }

  lemma IdentityEnds(d: Dock, p: Poll)
    requires d.state == DiscIdAcc
    ensures Outcome(d, OnDiscIdAcc(d, p), p)
  {
    hide Outcome, BusyCompletion, CmdDone, SendVdm, Elapsed, Structured;
    CmdDoneWaits(d, p);
    var d1 := CmdDone(d, p).1;
    var vid, pid, kind := p.vdm[5] + 0x100 * p.vdm[6] as int, p.vdm[15] + 0x100 * p.vdm[16] as int, p.vdm[8] / 8 % 8;
    var dock := vid == VID_NINTENDO && pid == PID_DOCK && kind == 5;
    var d2 := d1.(found := d1.found.(ninDock := dock, ninCharger := vid == VID_NINTENDO && pid == PID_CHARGER));
    SendMoves(d2, Structured(0x04, 0x81, VID_NINTENDO), NinSent, p);
    SendMoves(d2, Structured(0x02, 0x80, 0xFF00), SvidSent, p);
    Concludes(d, OnDiscIdAcc(d, p), if dock then NinSent else SvidSent, p);
  }

  lemma NinModeEnds(d: Dock, p: Poll)
    requires d.state == NinAcc
    ensures Outcome(d, OnNinAcc(d, p), p)
  {
    hide Outcome, BusyCompletion, CmdDone, CmdGo, Elapsed;
    CmdDoneWaits(d, p);
    var d1 := CmdDone(d, p).1;
    CmdMoves(d1.(found := d1.found.(ninMode := true)), CMD_DP_ENTER, DpEnterSent, p);
    Concludes(d, OnNinAcc(d, p), DpEnterSent, p);
  }

  lemma ModesEnd(d: Dock, p: Poll)
    requires d.state == SvidAcc || d.state == ModeAcc
    ensures Outcome(d, if d.state == SvidAcc then OnSvidAcc(d, p) else OnModeAcc(d, p), p)
  {
    hide Outcome, BusyCompletion, CmdDone, CmdGo, SendVdm, Elapsed, Structured, Bit;
    CmdDoneWaits(d, p);
    var d1 := CmdDone(d, p).1;
    CmdMoves(d1, CMD_DP_ENTER, DpEnterSent, p);
    SendMoves(d1, Structured(0x03, 0x80, 0xFF01), ModeSent, p);
    if d.state == SvidAcc {
      Concludes(d, OnSvidAcc(d, p), ModeSent, p);
    } else {
      Concludes(d, OnModeAcc(d, p), DpEnterSent, p);
    }
  }

  lemma EnterEnds(d: Dock, p: Poll)
    requires d.state == DpEnterSent
    ensures Outcome(d, OnDpEnterSent(d, p), p)
  {
    hide Outcome, BusyCompletion, CmdDone, CmdGo, Elapsed, Pins, PinOf;
    CmdDoneWaits(d, p);
    var d1 := CmdDone(d, p).1;
    var pin := PinOf(Pins(d1.found.ninDock, p.vdm));
    var cfg := if d1.found.ninDock then [6, 0, pin, 0] else [6, pin, 0, 0];
    var d2 := d1.(found := d1.found.(lanes := LanesOf(pin)), sent := d1.sent + [DpConfig(cfg)]);
    CmdMoves(d2, CMD_DP_CFG, DpCfgSent, p);
    Concludes(d, OnDpEnterSent(d, p), DpCfgSent, p);
  }

  lemma LanesEnd(d: Dock, p: Poll)
    requires d.state == DpCfgSent || d.state == DpHpdWait
    ensures Outcome(d, if d.state == DpCfgSent then OnDpCfgSent(d, p) else OnDpHpdWait(d, p), p)
  {
    hide Outcome, BusyCompletion, Has, CmdDone, SendVdm, Elapsed, NdMessage;
    CmdDoneWaits(d, p);
    SendMoves(d, NdMessage(false, ND_STATE, []), QuerySent, p);
    if d.state == DpCfgSent {
      Concludes(d, OnDpCfgSent(d, p), DpHpdWait, p);
    } else {
      Concludes(d, OnDpHpdWait(d, p), QuerySent, p);
    }
  }

  lemma LightEnds(d: Dock, p: Poll)
    requires d.state == QueryAcc || (d.state == LedAcc && d.found.ledLit)
    ensures Outcome(d, if d.state == QueryAcc then OnQueryAcc(d, p) else OnLedAcc(d, p), p)
  {
    hide Outcome, BusyCompletion, CmdDone, SendVdm, Elapsed, NdMessage;
    CmdDoneWaits(d, p);
    SendMoves(CmdDone(d, p).1, NdMessage(true, ND_LED, LED_ON), LedSent, p);
    SendMoves(d, NdMessage(true, ND_HUB, []), HubSent, p);
    if d.state == QueryAcc {
      Concludes(d, OnQueryAcc(d, p), LedSent, p);
    } else {
      Concludes(d, OnLedAcc(d, p), HubSent, p);
    }
  }

  /** The light going on starts the second part of its state. */
  lemma LightComesOn(d: Dock, p: Poll)
    requires d.state == LedAcc && !d.found.ledLit
    ensures Outcome(d, OnLedAcc(d, p), p)
  {
    hide BusyCompletion, CmdDone, Elapsed, Rank;
    CmdDoneWaits(d, p);
  }

  lemma HubEnds(d: Dock, p: Poll)
    requires d.state == HubAcc
    ensures Outcome(d, OnHubAcc(d, p), p)
  {
    hide BusyCompletion, CmdDone, SendVdm, Elapsed, NdMessage, HubReply, HubBusy;
    CmdDoneWaits(d, p);
    var d1 := CmdDone(d, p).1;
    SendMoves(d1.(tries := d1.tries + 1), NdMessage(true, ND_HUB, []), HubSent, p);
  }

  /** One poll with a cable in: the handshake settles, goes on to a later phase, asks the hub again,
      or stays; and it stays past the timeout only on a completion reported while busy. */
  lemma OnePoll(d: Dock, p: Poll)
    requires !Over(d) && Inserted(p.s1)
    ensures Outcome(Sample(d, p), Next(d, p), p)
  {
    hide Outcome, OnVdmSent, OnWaitPlug, OnRdoSent, OnPsRdySent, OnDrSwapSent, OnDiscIdAcc, OnNinAcc, OnSvidAcc,
      OnModeAcc, OnDpEnterSent, OnDpCfgSent, OnDpHpdWait, OnQueryAcc, OnLedAcc, OnHubAcc, Has, With;
    var d1 := Sample(d, p);
    if Faulty(d1.s1) {
      FailSettles(d1, p);
    } else if AwaitsVdm(d.state) {
      ReplyEnds(d1, p);
    } else {
      match d.state
      case WaitPlug => WaitPlugEnds(d1, p);
      case RdoSent => ContractEnds(d1, p);
      case PsRdySent => SinkReadyEnds(d1, p);
      case DrSwapSent => SinkReadyEnds(d1, p);
      case DiscIdAcc => IdentityEnds(d1, p);
      case NinAcc => NinModeEnds(d1, p);
      case SvidAcc => ModesEnd(d1, p);
      case ModeAcc => ModesEnd(d1, p);
      case DpEnterSent => EnterEnds(d1, p);
      case DpCfgSent => LanesEnd(d1, p);
      case DpHpdWait => LanesEnd(d1, p);
      case QueryAcc => LightEnds(d1, p);
      case LedAcc => if d.found.ledLit { LightEnds(d1, p); } else { LightComesOn(d1, p); }
      case HubAcc => HubEnds(d1, p);
    }
  }

  lemma FailSettles(d: Dock, p: Poll)
    ensures Outcome(d, Fail(d, p), p)
  {
  }

  // ------------------------------------------------------------- whole runs

  /** A handshake that is over stays over: a failed one as it is, a finished one until the cable goes
      or the controller reports a fault. */
  lemma SettledStays(d: Dock, p: Poll)
    requires Over(d)
    ensures Over(Next(d, p))
    ensures d.state != Done ==> Next(d, p) == d
    ensures d.state == Done ==> Next(d, p).state == if Inserted(p.s1) && !Faulty(p.s1) then Done else Failed
  {
    hide Has, With;
  }

  lemma {:induction false} RunStaysSettled(d: Dock, ps: seq<Poll>)
    requires Over(d)
    ensures Over(Run(d, ps))
    decreases |ps|
  {
    hide Over, Next;
    if ps != [] {
      SettledStays(d, ps[0]);
      RunStaysSettled(Next(d, ps[0]), ps[1..]);
    }
  }

  /** Polls in order, with a cable in, each ending at most `gap` after the one before it began. */
  predicate Paced(ps: seq<Poll>, began: nat, ended: nat, gap: nat)
    decreases |ps|
  {
    ps != [] ==>
      && Inserted(ps[0].s1)
      && ended <= ps[0].now <= ps[0].stamp <= began + gap
      && Paced(ps[1..], ps[0].now, ps[0].stamp, gap)
  }

  /** The completions reported while busy. */
  function BusyPolls(d: Dock, ps: seq<Poll>): nat
    decreases |ps|
  {
    if ps == [] then 0
    else (if BusyCompletion(Sample(d, ps[0])) then 1 else 0) + BusyPolls(Next(d, ps[0]), ps[1..])
  }

  predicate AsksAgain(d: Dock, p: Poll) {
    d.state == HubAcc && Next(d, p).state == HubSent
  }

  /** The hub requests sent again. */
  function HubRetries(d: Dock, ps: seq<Poll>): nat
    decreases |ps|
  {
    if ps == [] then 0 else (if AsksAgain(d, ps[0]) then 1 else 0) + HubRetries(Next(d, ps[0]), ps[1..])
  }

  function LastPoll(ps: seq<Poll>, began: nat): nat {
    if ps == [] then began else ps[|ps| - 1].now
  }

  /** A phase's timeout and one poll to notice it. */
  function Slot(gap: nat): nat {
    STEP_TIMEOUT + gap
  }

  function PhasesLeft(d: Dock): nat {
    if Phase(d) <= LAST_PHASE then LAST_PHASE - Phase(d) else 0
  }

  /** The time the handshake may still take: a slot for every phase to come, and the rest of this one. */
  function TimeLeft(d: Dock, began: nat, gap: nat): nat {
    PhasesLeft(d) * Slot(gap) + (if Slot(gap) + d.since < began + gap then gap else Slot(gap) + d.since - began)
  }

  function Credit(d: Dock, p: Poll, gap: nat): nat {
    (if BusyCompletion(Sample(d, p)) then gap else 0)
    + (if AsksAgain(d, p) then 2 * Slot(gap) else 0)
  }

  lemma PhaseBound(d: Dock)
    requires !Over(d)
    ensures Phase(d) <= LAST_PHASE
  {
  }

  lemma TimeLeftShrinks(d: Dock, p: Poll, began: nat, gap: nat)
    requires !Over(d) && Inserted(p.s1) && !Over(Next(d, p))
    requires began <= p.now <= p.stamp <= began + gap && d.since <= p.now < d.since + WORD
    ensures TimeLeft(Next(d, p), p.now, gap) + p.now - began <= TimeLeft(d, began, gap) + Credit(d, p, gap)
    ensures d.since <= Next(d, p).since <= p.stamp
  {
    hide Next, Phase, BusyCompletion, Inserted, Over;
    var e := Next(d, p);
    OnePoll(d, p);
    SampleHides(d, p);
    PhaseBound(d);
    PhaseBound(e);
    if Phase(e) > Phase(d) {
      NextMultiple(PhasesLeft(e), PhasesLeft(d), Slot(gap));
    } else if Phase(e) < Phase(d) {
      assert PhasesLeft(e) == PhasesLeft(d) + 1;
      assert PhasesLeft(e) * Slot(gap) == PhasesLeft(d) * Slot(gap) + Slot(gap);
    }
  }

  lemma SampleHides(d: Dock, p: Poll)
    ensures Phase(Sample(d, p)) == Phase(d) && Sample(d, p).since == d.since && Sample(d, p).state == d.state
  {
    hide With;
  }

  lemma {:induction false} TimeBound(d: Dock, ps: seq<Poll>, began: nat, ended: nat, gap: nat)
    requires !Over(Run(d, ps)) && Paced(ps, began, ended, gap)
    requires d.since <= ended && began <= ended
    requires forall p :: p in ps ==> p.now < d.since + WORD
    ensures LastPoll(ps, began) - began
            <= TimeLeft(d, began, gap) + gap * BusyPolls(d, ps) + 2 * Slot(gap) * HubRetries(d, ps)
    decreases |ps|
  {
    hide Next, Over, TimeLeft, Inserted, BusyCompletion, Slot;
    if ps != [] {
      var p, rest := ps[0], ps[1..];
      var e := Next(d, p);
      if Over(d) {
        RunStaysSettled(d, ps);
      } else if Over(e) {
        RunStaysSettled(e, rest);
      } else {
        TimeLeftShrinks(d, p, began, gap);
        TimeBound(e, rest, p.now, p.stamp, gap);
        assert LastPoll(ps, began) == LastPoll(rest, p.now);
        Distribute(gap, BusyPolls(d, ps), BusyPolls(e, rest));
        Distribute(2 * Slot(gap), HubRetries(d, ps), HubRetries(e, rest));
      }
    }
  }

  lemma Distribute(k: nat, n: nat, m: nat)
    ensures n == m + 1 ==> k * n == k * m + k
  {
  }

  /** From `dock_start`, with a cable in: the handshake is over 23 timeouts after it began, and a poll
      more for each; each completion reported while busy can cost one more poll, and each hub request
      sent again two more timeouts. */
  lemma HandshakeEnds(p: Poll, ps: seq<Poll>, gap: nat)
    requires Paced(ps, p.stamp, p.stamp, gap)
    requires forall q :: q in ps ==> q.now < p.stamp + WORD
    requires LastPoll(ps, p.stamp) - p.stamp
             > 23 * Slot(gap) + gap * BusyPolls(Start(p), ps) + 2 * Slot(gap) * HubRetries(Start(p), ps)
    ensures Over(Run(Start(p), ps))
  {
    hide Run, Paced, BusyPolls, HubRetries, LastPoll;
    if !Over(Run(Start(p), ps)) {
      TimeBound(Start(p), ps, p.stamp, p.stamp, gap);
    }
  }
}
