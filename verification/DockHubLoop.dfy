/** A hub that stays busy is asked for ever: `_go` clears the counter meant to stop it after ten. */
module DockHubLoop {
  import opened Bits
  import opened PowerProfiles
  import opened DockSpec
  import opened DockSafety
  import opened DockProgress

  /** In every reachable state the hub is asked again exactly when its reply says it is busy: how often
      it was asked before plays no part. */
  lemma HubAskedAgainIff(d: Dock, p: Poll)
    requires Inv(d) && d.state == HubAcc && Inserted(p.s1) && !Faulty(p.s1)
    ensures AsksAgain(d, p) <==>
            CmdDone(Sample(d, p), p).0 == Complete && HubReply(p.vdm) && HubBusy(p.vdm) && p.wrOk
  {
    hide Good, Has, With, HubReply, HubBusy, NdMessage, CmdDone;
    var d1 := Sample(d, p);
    CmdDoneKeepsRest(d1, p);
  }

  lemma CmdDoneKeepsRest(d: Dock, p: Poll)
    ensures var (c, e) := CmdDone(d, p);
            e == d.(alerts := e.alerts)
            && (Has(d.alerts, AL_CMD_DONE) && !Busy(d.s1) && !LastCmdBad(d.s1) ==> c == Complete)
  {
    hide Has, Without, Busy, LastCmdBad, TimedOut;
  }

  // -------------------------------------------------------- a run that gets there

  const READY: bv16 := 0x0280
  const ALL_ALERTS: bv16 := 0x1804

  const ONE_PROFILE: Block29 :=
    [4, 0x2C, 0x91, 0x01, 0, 0, 0, 0, 0, 0, 0, 0, 0, 0, 0, 0, 0, 0, 0, 0, 0, 0, 0, 0, 0, 0, 0, 0, 0]
  const DOCK_IDENTITY: Block29 :=
    [20, 0x41, 0, 0, 0, 0x7E, 0x05, 0, 0x28, 0, 0, 0, 0, 0, 0, 0x03, 0x20, 0, 0, 0, 0, 0, 0, 0, 0, 0, 0, 0, 0]
  /** Takes the dock's mode, offers both pin assignments, and says the hub is busy. */
  const BUSY_DOCK: Block29 :=
    [4, 0x44, 0x81, 0x7E, 0x05, 1, 2, 0x21, 0, 0, 0, 0, 0, 0, 0, 0, 0, 0, 0, 0, 0, 0, 0, 0, 0, 0, 0, 0, 0]

  function Answer(t: nat, vdm: Block29): (p: Poll) {
    Poll(t, t, ALL_ALERTS, READY, 0, true, ONE_PROFILE, false, [0, 0, 0, 0, 0], vdm, true, true)
  }

  lemma ReadyMeans()
    ensures Inserted(READY) && !Faulty(READY) && !Busy(READY) && !LastCmdBad(READY) && RoleOf(READY) == Dfp
  {
  }

  lemma AlertsArrive(a: bv16)
    ensures var w := With(a, ALL_ALERTS);
            Has(w, AL_CMD_DONE) && Has(w, AL_VDM_RECEIVED) && Has(w, AL_CONTRACT)
  {
    assert (a | ALL_ALERTS) & AL_CMD_DONE == AL_CMD_DONE;
    assert (a | ALL_ALERTS) & AL_VDM_RECEIVED == AL_VDM_RECEIVED;
    assert (a | ALL_ALERTS) & AL_CONTRACT == AL_CONTRACT;
  }

  const STEP := 500

  function Answered(n: nat): Poll {
    Answer(STEP * n, if n <= 6 then DOCK_IDENTITY else BUSY_DOCK)
  }

  function Script(n: nat): seq<Poll> {
    if n == 0 then [] else Script(n - 1) + [Answered(n)]
  }

  /** Where the handshake stands after each answer. */
  function Stage(n: nat): State {
    if n == 0 || n == 1 then WaitPlug
    else if n == 2 then RdoSent
    else if n == 3 then PsRdySent
    else if n == 4 then DiscIdSent
    else if n == 5 then DiscIdAcc
    else if n == 6 then NinSent
    else if n == 7 then NinAcc
    else if n == 8 then DpEnterSent
    else if n == 9 then DpCfgSent
    else if n == 10 then DpHpdWait
    else if n == 11 then QuerySent
    else if n == 12 then QueryAcc
    else if n == 13 then LedSent
    else if n == 14 || n == 15 then LedAcc
    else if n % 2 == 0 then HubSent
    else HubAcc
  }

  predicate At(d: Dock, n: nat) {
    && d.state == Stage(n) && d.since == STEP * n
    && (n > 0 <==> d.plugSeen) && (n >= 6 <==> d.found.ninDock) && (n >= 15 <==> d.found.ledLit)
    && d.tries == 0
  }

  /** The message of the n-th answer: an identity at first, then the dock's mode, its pins and its hub. */
  predicate Tells(vdm: Block29, n: nat) {
    if n <= 6 then
      vdm[1] == 0x41 && vdm[5] == 0x7E && vdm[6] == 0x05 && vdm[8] == 0x28 && vdm[15] == 0x03 && vdm[16] == 0x20
    else
      && vdm[0] == 4 && vdm[1] == 0x44 && vdm[2] == 0x81 && vdm[3] == 0x7E && vdm[4] == 0x05
      && PinOf(Pins(true, vdm)) == 8 && HubReply(vdm) && HubBusy(vdm)
  }

  lemma IdentityTells(n: nat)
    requires n <= 6
    ensures Tells(DOCK_IDENTITY, n)
  {
  }

  lemma DockTells(n: nat)
    requires n > 6
    ensures Tells(BUSY_DOCK, n)
  {
  }

  lemma ScriptTells(n: nat)
    ensures Tells(Answered(n).vdm, n)
    ensures Offered(Answered(n)) == [Profile(5000, 3000)]
  {
    hide Tells, Profiles, ONE_PROFILE, BUSY_DOCK, DOCK_IDENTITY;
    OneProfileReads();
    if n <= 6 {
      IdentityTells(n);
    } else {
      DockTells(n);
    }
  }

  /** The n-th answer has been sampled: everything waited for is there, and the message is the n-th. */
  predicate Served(d: Dock, p: Poll, n: nat) {
    && p.now == p.stamp == STEP * n && p.wrOk && p.hpd && !p.contractOk
    && Inserted(d.s1) && RoleOf(d.s1) == Dfp && !BusyCompletion(d)
    && Has(d.alerts, AL_VDM_RECEIVED) && Has(d.alerts, AL_CONTRACT)
    && CmdDone(d, p) == (Complete, d.(alerts := CmdDone(d, p).1.alerts))
    && Offered(p) == [Profile(5000, 3000)] && Tells(p.vdm, n)
  }

  /** What every answer does before the state's own part. */
  lemma AnswerIsHandled(d: Dock, n: nat)
    requires !Over(d)
    ensures var d1 := Sample(d, Answered(n));
            Next(d, Answered(n)) == Handle(d1, Answered(n)) && Served(d1, Answered(n), n)
  {
    hide Handle, Has, With, Faulty, Inserted, Busy, LastCmdBad, RoleOf, READY, ALL_ALERTS, Tells, Offered, CmdDone,
      ONE_PROFILE, BUSY_DOCK, DOCK_IDENTITY;
    ReadyMeans();
    AlertsArrive(d.alerts);
    ScriptTells(n);
    CmdDoneKeepsRest(Sample(d, Answered(n)), Answered(n));
  }

  lemma OneProfileReads()
    ensures Profiles(ONE_PROFILE) == [Profile(5000, 3000)]
  {
    assert Word(ONE_PROFILE, 1) == FixedSupply(0, 5000, 3000);
    DecodeReadsFixedSupply(0, 5000, 3000);
    hide Decode, Word, FixedSupply;
    assert Profiles(ONE_PROFILE)[0] == Profile(5000, 3000);
  }

  /** The branch taken, state by state. */
  lemma Dispatch(d: Dock, p: Poll)
    requires !Over(d)
    ensures AwaitsVdm(d.state) ==> Handle(d, p) == OnVdmSent(d, p)
    ensures d.state == WaitPlug ==> Handle(d, p) == OnWaitPlug(d, p)
    ensures d.state == RdoSent ==> Handle(d, p) == OnRdoSent(d, p)
    ensures d.state == PsRdySent ==> Handle(d, p) == OnPsRdySent(d, p)
    ensures d.state == DrSwapSent ==> Handle(d, p) == OnDrSwapSent(d, p)
    ensures d.state == DiscIdAcc ==> Handle(d, p) == OnDiscIdAcc(d, p)
    ensures d.state == NinAcc ==> Handle(d, p) == OnNinAcc(d, p)
    ensures d.state == SvidAcc ==> Handle(d, p) == OnSvidAcc(d, p)
    ensures d.state == ModeAcc ==> Handle(d, p) == OnModeAcc(d, p)
    ensures d.state == DpEnterSent ==> Handle(d, p) == OnDpEnterSent(d, p)
    ensures d.state == DpCfgSent ==> Handle(d, p) == OnDpCfgSent(d, p)
    ensures d.state == DpHpdWait ==> Handle(d, p) == OnDpHpdWait(d, p)
    ensures d.state == QueryAcc ==> Handle(d, p) == OnQueryAcc(d, p)
    ensures d.state == LedAcc ==> Handle(d, p) == OnLedAcc(d, p)
    ensures d.state == HubAcc ==> Handle(d, p) == OnHubAcc(d, p)
  {
    hide OnVdmSent, OnWaitPlug, OnRdoSent, OnPsRdySent, OnDrSwapSent, OnDiscIdAcc, OnNinAcc, OnSvidAcc,
      OnModeAcc, OnDpEnterSent, OnDpCfgSent, OnDpHpdWait, OnQueryAcc, OnLedAcc, OnHubAcc;
  }

  lemma ReplyTaken(d: Dock, p: Poll, n: nat)
    requires AwaitsVdm(d.state) && Served(d, p, n)
    ensures var e := OnVdmSent(d, p);
            && e.state == Accepting(d.state) && e.since == STEP * n && e.tries == 0
            && e.found == d.found && e.plugSeen == d.plugSeen
  {
    hide CmdDone;
  }

  lemma PlugSeen(d: Dock, p: Poll)
    requires At(d, 0) && Served(d, p, 1)
    ensures At(OnWaitPlug(d, p), 1)
  {
    hide CmdDone;
  }

  lemma ProfilesRead(d: Dock, p: Poll)
    requires At(d, 1) && Served(d, p, 2)
    ensures At(OnWaitPlug(d, p), 2)
  {
    hide CmdDone, Choose, OpMa, Rdo, DockOffer, Offered;
    OneProfileChosen();
  }

  lemma ContractTaken(d: Dock, p: Poll)
    requires At(d, 2) && Served(d, p, 3)
    ensures At(OnRdoSent(d, p), 3)
  {
    hide CmdDone;
  }

  lemma SinkReady(d: Dock, p: Poll)
    requires At(d, 3) && Served(d, p, 4)
    ensures At(OnPsRdySent(d, p), 4)
  {
    hide CmdDone;
  }

  lemma IdentityRead(d: Dock, p: Poll)
    requires At(d, 5) && Served(d, p, 6)
    ensures At(OnDiscIdAcc(d, p), 6)
  {
    hide CmdDone;
  }

  lemma DockModeEntered(d: Dock, p: Poll)
    requires At(d, 7) && Served(d, p, 8)
    ensures At(OnNinAcc(d, p), 8)
  {
    hide CmdDone;
  }

  lemma PinsOffered(d: Dock, p: Poll)
    requires At(d, 8) && Served(d, p, 9)
    ensures At(OnDpEnterSent(d, p), 9)
  {
    hide CmdDone;
  }

  lemma LanesSet(d: Dock, p: Poll)
    requires At(d, 9) && Served(d, p, 10)
    ensures At(OnDpCfgSent(d, p), 10)
  {
    hide CmdDone;
  }

  lemma PlugDetected(d: Dock, p: Poll)
    requires At(d, 10) && Served(d, p, 11)
    ensures At(OnDpHpdWait(d, p), 11)
  {
    hide CmdDone;
  }

  lemma StateRead(d: Dock, p: Poll)
    requires At(d, 12) && Served(d, p, 13)
    ensures At(OnQueryAcc(d, p), 13)
  {
    hide CmdDone;
  }

  lemma LightOn(d: Dock, p: Poll)
    requires At(d, 14) && Served(d, p, 15)
    ensures At(OnLedAcc(d, p), 15)
  {
    hide CmdDone;
  }

  lemma LightSettled(d: Dock, p: Poll)
    requires At(d, 15) && Served(d, p, 16)
    ensures At(OnLedAcc(d, p), 16)
  {
    hide CmdDone;
  }

  lemma OneProfileChosen()
    ensures Choose([Profile(5000, 3000)]) == 1
  {
  }

  lemma BusyHubAskedAgain(d: Dock, p: Poll, n: nat)
    requires d.state == HubAcc && d.tries == 0 && Served(d, p, n) && n > 6
    ensures var e := OnHubAcc(d, p);
            && e.state == HubSent && e.since == STEP * n && e.tries == 0
            && e.plugSeen == d.plugSeen && e.found == d.found
  {
    hide CmdDone, HubReply, HubBusy;
  }

  // --------------------------------------------------------- the endless run

  lemma AtStage(d: Dock, n: nat)
    requires At(d, n)
    ensures d.state == Stage(n) && !Over(d)
  {
    StageIs(n);
    hide Stage;
  }

  lemma EarlyStep(d: Dock, p: Poll, n: nat)
    requires At(d, n) && n < 16 && n !in {4, 6, 11, 13} && Served(d, p, n + 1)
    ensures At(Handle(d, p), n + 1)
  {
    hide Handle, Served, At, OnWaitPlug, OnRdoSent, OnPsRdySent, OnDiscIdAcc, OnNinAcc, OnDpEnterSent, OnDpCfgSent,
      OnDpHpdWait, OnQueryAcc, OnLedAcc, OnHubAcc, OnVdmSent;
    AtStage(d, n);
    Dispatch(d, p);
    match n
    case 0 => PlugSeen(d, p);
    case 1 => ProfilesRead(d, p);
    case 2 => ContractTaken(d, p);
    case 3 => SinkReady(d, p);
    case 5 => IdentityRead(d, p);
    case 7 => DockModeEntered(d, p);
    case 8 => PinsOffered(d, p);
    case 9 => LanesSet(d, p);
    case 10 => PlugDetected(d, p);
    case 12 => StateRead(d, p);
    case 14 => LightOn(d, p);
    case 15 => LightSettled(d, p);
  }

  lemma ReplyStep(d: Dock, p: Poll, n: nat)
    requires At(d, n) && Served(d, p, n + 1)
    requires n in {4, 6, 11, 13} || (n >= 16 && n % 2 == 0)
    ensures At(Handle(d, p), n + 1)
  {
    hide Handle, Served, Stage, Accepting, AwaitsVdm, OnVdmSent;
    StageIs(n);
    StageAccepts(n);
    Dispatch(d, p);
    ReplyTaken(d, p, n + 1);
  }

  lemma StageIs(n: nat)
    ensures Stage(n) == HubAcc <==> n >= 17 && n % 2 == 1
    ensures n >= 16 && n % 2 == 0 ==> Stage(n) == HubSent
    ensures Stage(n) != Idle && Stage(n) != Done && Stage(n) != Failed
  {
  }

  lemma StageAccepts(n: nat)
    requires n in {4, 6, 11, 13} || (n >= 16 && n % 2 == 0)
    ensures AwaitsVdm(Stage(n)) && Accepting(Stage(n)) == Stage(n + 1)
  {
  }

  lemma HubHandles(d: Dock, p: Poll)
    requires d.state == HubAcc
    ensures Handle(d, p) == OnHubAcc(d, p)
  {
    hide OnHubAcc;
  }

  lemma HubStep(d: Dock, p: Poll, n: nat)
    requires At(d, n) && n >= 17 && n % 2 == 1 && Served(d, p, n + 1)
    ensures At(Handle(d, p), n + 1)
  {
    hide Handle, Stage, Served, OnHubAcc;
    StageIs(n);
    StageIs(n + 1);
    HubHandles(d, p);
    BusyHubAskedAgain(d, p, n + 1);
  }

  lemma AnswerStep(d: Dock, n: nat)
    requires At(d, n)
    ensures At(Next(d, Answered(n + 1)), n + 1)
    ensures !Over(d) && !BusyCompletion(Sample(d, Answered(n + 1)))
    ensures AsksAgain(d, Answered(n + 1)) <==> n >= 17 && n % 2 == 1
  {
    hide Next, Answered, Sample, BusyCompletion, Stage, Handle, Served;
    StageIs(n);
    StageIs(n + 1);
    AnswerIsHandled(d, n + 1);
    var d1, p := Sample(d, Answered(n + 1)), Answered(n + 1);
    ServedIsNotBusy(d1, p, n + 1);
    SampleStands(d, n);
    if n in {4, 6, 11, 13} || (n >= 16 && n % 2 == 0) {
      ReplyStep(d1, p, n);
    } else if n < 16 {
      EarlyStep(d1, p, n);
    } else {
      HubStep(d1, p, n);
    }
  }

  lemma ServedIsNotBusy(d: Dock, p: Poll, n: nat)
    requires Served(d, p, n)
    ensures !BusyCompletion(d)
  {
  }

  lemma SampleStands(d: Dock, n: nat)
    requires At(d, n)
    ensures At(Sample(d, Answered(n + 1)), n)
  {
    hide With, Stage, Answered;
  }

  lemma {:induction false} Appending(d: Dock, ps: seq<Poll>, p: Poll, began: nat, ended: nat, gap: nat)
    requires began <= ended
    ensures var e := Run(d, ps);
            && Run(d, ps + [p]) == Next(e, p)
            && BusyPolls(d, ps + [p]) == BusyPolls(d, ps) + (if BusyCompletion(Sample(e, p)) then 1 else 0)
            && HubRetries(d, ps + [p]) == HubRetries(d, ps) + (if AsksAgain(e, p) then 1 else 0)
    ensures Paced(ps, began, ended, gap) && Inserted(p.s1) && p.now <= p.stamp
            && (if ps == [] then ended <= p.now && p.stamp <= began + gap
                else ps[|ps| - 1].stamp <= p.now && p.stamp <= ps[|ps| - 1].now + gap)
            ==> Paced(ps + [p], began, ended, gap)
    decreases |ps|
  {
    hide Next, BusyCompletion, AsksAgain, Inserted, Sample;
    if ps == [] {
      assert ps + [p] == [p];
    } else {
      assert (ps + [p])[0] == ps[0] && (ps + [p])[1..] == ps[1..] + [p];
      if ps[0].now <= ps[0].stamp {
        Appending(Next(d, ps[0]), ps[1..], p, ps[0].now, ps[0].stamp, gap);
      } else {
        Appending(Next(d, ps[0]), ps[1..], p, ps[0].now, ps[0].now, gap);
      }
    }
  }

  /** The concrete run: a dock that answers at once and whose hub stays busy. However many polls it is
      given it is not over, no completion came while busy, and the hub has been asked again at every
      second poll, far more often than the ten times the counter was meant to allow. */
  lemma {:induction false} BusyHubNeverEnds(n: nat)
    ensures var d, ps := Start(Answered(0)), Script(n);
            && |ps| == n && Paced(ps, 0, 0, STEP) && BusyPolls(d, ps) == 0
            && HubRetries(d, ps) == (if n < 17 then 0 else (n - 16) / 2)
            && !Over(Run(d, ps))
  {
    hide Run, BusyPolls, HubRetries, Paced, Over, Answered;
    StandsAfter(n);
    NotOver(Run(Start(Answered(0)), Script(n)), n);
  }

  lemma NotOver(d: Dock, n: nat)
    requires At(d, n)
    ensures !Over(d)
  {
  }

  lemma {:induction false} StandsAfter(n: nat)
    ensures var d, ps := Start(Answered(0)), Script(n);
            && |ps| == n && Paced(ps, 0, 0, STEP) && BusyPolls(d, ps) == 0
            && HubRetries(d, ps) == (if n < 17 then 0 else (n - 16) / 2)
            && At(Run(d, ps), n)
            && (n > 0 ==> ps[n - 1] == Answered(n))
  {
    if n == 0 {
      hide READY, ALL_ALERTS, ONE_PROFILE, BUSY_DOCK, DOCK_IDENTITY;
    } else {
      hide Next, Run, BusyPolls, HubRetries, Paced, BusyCompletion, AsksAgain, Inserted, Sample, At, Start,
        Answer, Over;
      StandsAfter(n - 1);
      var d, ps := Start(Answered(0)), Script(n - 1);
      AnswerStep(Run(d, ps), n - 1);
      AnswerTimes(n);
      AnswerTimes(n - 1);
      Appending(d, ps, Answered(n), 0, 0, STEP);
    }
  }

  lemma AnswerTimes(n: nat)
    ensures Answered(n).now == Answered(n).stamp == STEP * n && Inserted(Answered(n).s1)
  {
    hide READY, ALL_ALERTS, ONE_PROFILE, BUSY_DOCK, DOCK_IDENTITY, Inserted;
    ReadyMeans();
  }
}
