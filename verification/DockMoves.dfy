/** What the moves of the handshake do (usbpd.c), said of the state before and after: which bits are
    left, what goes over the wire, and which answers lead where. */
module DockMoves {
  import opened Bits
  import opened PowerProfiles
  import opened DockSpec
  import opened DockSafety
  import DockHubLoop
  import opened DockProgress

  lemma BitIsClear(a: bv16, bit: bv16)
    ensures (a & !bit) & bit == 0
  {
  }

  lemma OthersStay(a: bv16, bit: bv16)
    ensures (a & !bit) | bit == a | bit
  {
  }

  lemma ClearStays(a: bv16, bit: bv16)
    requires a & bit == 0
    ensures a & !bit == a
  {
  }

  /** Taking an alert clears it and leaves the others. */
  lemma TakingClears(a: bv16, bit: bv16)
    ensures !Has(Without(a, bit), bit) && With(Without(a, bit), bit) == With(a, bit)
    ensures !Has(a, bit) ==> Without(a, bit) == a
  {
    BitIsClear(a, bit);
    OthersStay(a, bit);
    if !Has(a, bit) {
      ClearStays(a, bit);
    }
  }

  /** A command goes out behind everything sent before, no completion of an earlier one is left to be
      taken for its own, and DisplayPort counts as entered exactly by its one command. */
  lemma CommandMoves(d: Dock, code: nat, next: State, p: Poll)
    ensures var e := CmdGo(d, code, next, p);
            && e.state == next && e.since == p.stamp && e.tries == 0 && e.sent == d.sent + [Cmd(code)]
            && !Has(e.alerts, AL_CMD_DONE) && With(e.alerts, AL_CMD_DONE) == With(d.alerts, AL_CMD_DONE)
            && (e.found.dpOn <==> d.found.dpOn || code == CMD_DP_ENTER)
            && e.found == d.found.(dpOn := e.found.dpOn)
  {
    hide Has, With, Without;
    TakingClears(d.alerts, AL_CMD_DONE);
  }

  /** The four answers to "is it done": each from exactly one combination of the alert, the busy bit, the
      last command's status and the time; and the alert never counts twice. */
  lemma CompletionAnswers(d: Dock, p: Poll)
    ensures var (c, e) := CmdDone(d, p);
            && (c == Complete <==> Has(d.alerts, AL_CMD_DONE) && !Busy(d.s1) && !LastCmdBad(d.s1))
            && (c == Refused <==> Has(d.alerts, AL_CMD_DONE) && !Busy(d.s1) && LastCmdBad(d.s1))
            && (c == NoAnswer <==> !Has(d.alerts, AL_CMD_DONE) && Elapsed(p.now, d.since) > STEP_TIMEOUT)
            && !Has(e.alerts, AL_CMD_DONE) && With(e.alerts, AL_CMD_DONE) == With(d.alerts, AL_CMD_DONE)
            && e == d.(alerts := e.alerts)
  {
    hide Has, With, Without, Busy, LastCmdBad, Elapsed;
    TakingClears(d.alerts, AL_CMD_DONE);
  }

  /** The other end's answer can be configured for: it has four bytes and offers assignment C or D. */
  predicate Usable(ninDock: bool, vdm: Block29) {
    vdm[0] == 4 && (Bit(Pins(ninDock, vdm), 2) || Bit(Pins(ninDock, vdm), 3))
  }

  /** The lanes are configured exactly when the answer can be configured for: two when D is offered,
      four when only C is, with the configuration for them sent before the command; else it fails with
      nothing sent. */
  lemma ConfigureMoves(d: Dock, p: Poll)
    ensures var e := DpConfigure(d, p);
            if Usable(d.found.ninDock, p.vdm) then
              && e.state == DpCfgSent && e.found.ninDock == d.found.ninDock
              && e.found.lanes == (if Bit(Pins(d.found.ninDock, p.vdm), 3) then 2 else 4)
              && e.sent == d.sent + [DpConfig(ConfigOf(e.found)), Cmd(CMD_DP_CFG)]
            else
              e.state == Failed && e.failedState == d.state && e.sent == d.sent
  {
    hide Bit, Pins, Without;
  }

  /** Whether the hub is asked once more. */
  predicate AskOnceMore(d: Dock, p: Poll) {
    CmdDone(d, p).0 == Complete && HubReply(p.vdm) && HubBusy(p.vdm) && d.tries < 10
  }

  /** A busy hub is asked again while the counter is below ten, and asking again leaves the counter at
      zero; any other completed answer ends the handshake, and a reply says whether the hub is up. */
  lemma HubMoves(d: Dock, p: Poll)
    requires d.state == HubAcc
    ensures var e := OnHubAcc(d, p);
            && (AskOnceMore(d, p) && p.wrOk ==>
                  e.state == HubSent && e.tries == 0
                  && e.sent == d.sent + [Vdm(NdMessage(true, ND_HUB, [])), Cmd(CMD_SEND_VDM)])
            && (AskOnceMore(d, p) && !p.wrOk ==> e.state == Failed && e.sent == d.sent)
            && (CmdDone(d, p).0 == Complete && !AskOnceMore(d, p) ==>
                  e.state == Done && e.sent == d.sent
                  && e.found.hubUp == if HubReply(p.vdm) then !HubBusy(p.vdm) else d.found.hubUp)
            && (CmdDone(d, p).0 == Pending ==> e.state == HubAcc)
            && (CmdDone(d, p).0 in {NoAnswer, Refused} ==> e.state == Failed)
  {
    hide Has, Without, Busy, LastCmdBad, Elapsed, HubReply, HubBusy, NdMessage;
  }

  /** The contract's alert is taken, the contract is read when the register holds four bytes of it, and the sink is
      declared ready. */
  lemma ContractMoves(d: Dock, p: Poll)
    requires d.state == RdoSent && Has(d.alerts, 0x1000)
    ensures var e := OnRdoSent(d, p);
            && e.state == PsRdySent && e.sent == d.sent + [Cmd(0x0505)] && e.since == p.stamp
            && e.found == d.found.(got := e.found.got)
            && e.found.got == (if p.contractOk && p.contract[0] == 4 then Decode(Word(p.contract, 1)) else d.found.got)
            && !Has(e.alerts, 0x1000)
  {
    hide Has, Decode, Word, Without;
    TakingClears(d.alerts, 0x1000);
    StaysClear(Without(d.alerts, 0x1000), 0x1000, 0x0004);
  }

  lemma StaysClear(a: bv16, bit: bv16, other: bv16)
    requires !Has(a, bit)
    ensures !Has(Without(a, other), bit)
  {
    StillClear(a, bit, other);
  }

  lemma StillClear(a: bv16, bit: bv16, other: bv16)
    requires a & bit == 0
    ensures (a & !other) & bit == 0
  {
  }

  // ------------------------------------------------------- in figures

  /** The register bits: the plug, the fault, the last command's status and busy; the signal on the DisplayPort
      register; and the three alerts, each in the word of alerts. */
  lemma RegisterBits(w: bv16)
    ensures Inserted(w) == Has(w, 0x0080) && Faulty(w) == Has(w, 0x0003)
    ensures LastCmdBad(w) == Has(w, 0x0070) && Busy(w) == Has(w, 0x2000) && SignalOn(w) == Has(w, 0x0080)
    ensures AL_CMD_DONE == 0x0004 && AL_VDM_RECEIVED == 0x0800 && AL_CONTRACT == 0x1000
  {
    hide Has;
  }

  /** The data role's two bits. */
  lemma RoleIs(w: bv16)
    ensures RoleOf(w) == if w & 0x0300 == 0x0200 then Dfp else if w & 0x0300 == 0x0100 then Ufp else NoRole
  {
    HostBits(w);
    DeviceBits(w);
  }

  lemma HostBits(w: bv16)
    ensures (w & 0x0300) >> 8 == 2 <==> w & 0x0300 == 0x0200
  {
  }

  lemma DeviceBits(w: bv16)
    ensures (w & 0x0300) >> 8 == 1 <==> w & 0x0300 == 0x0100
  {
  }

  /** The alert a state waits for is not there. */
  predicate NothingCame(d: Dock) {
    if AwaitsVdm(d.state) then !Has(d.alerts, 0x0800)
    else if d.state == RdoSent then !Has(d.alerts, 0x1000)
    else CommandWait(d) && !Has(d.alerts, 0x0004)
  }

  /** A wait for a reply, a contract or a completion lasts two and a half seconds: a poll that brings nothing
      changes nothing until then, and fails after, with nothing sent. */
  lemma WaitsUntil2500(d: Dock, p: Poll)
    requires !Over(d) && Inserted(p.s1) && !Faulty(p.s1) && NothingCame(Sample(d, p))
    ensures var e := Next(d, p);
            if Elapsed(p.now, d.since) > 2500 then
              e.state == Failed && e.failedState == d.state && e.sent == d.sent && e.found == d.found
            else e == Sample(d, p)
  {
    hide Handle, OnWaitPlug, OnDpHpdWait, Has, Inserted, Faulty, With, Elapsed, OnVdmSent, OnRdoSent, OnPsRdySent,
      OnDrSwapSent, OnDiscIdAcc, OnNinAcc, OnSvidAcc, OnModeAcc, OnDpEnterSent, OnDpCfgSent, OnQueryAcc, OnLedAcc,
      OnHubAcc;
    var d1 := Sample(d, p);
    DockHubLoop.Dispatch(d1, p);
    if AwaitsVdm(d.state) {
      ReplyWaits(d1, p);
    } else if d.state == RdoSent {
      ContractWaits(d1, p);
    } else {
      CommandsWait(d1, p);
    }
  }

  /** What a wait that brought nothing comes to. */
  predicate Waited(d: Dock, e: Dock, p: Poll) {
    if Elapsed(p.now, d.since) > 2500 then
      e.state == Failed && e.failedState == d.state && e.sent == d.sent && e.found == d.found
    else e == d
  }

  lemma ReplyWaits(d: Dock, p: Poll)
    requires AwaitsVdm(d.state) && !Has(d.alerts, 0x0800)
    ensures Waited(d, OnVdmSent(d, p), p)
  {
    hide Has, Elapsed, Without;
  }

  lemma ContractWaits(d: Dock, p: Poll)
    requires d.state == RdoSent && !Has(d.alerts, 0x1000)
    ensures Waited(d, OnRdoSent(d, p), p)
  {
    hide Has, Elapsed, Without;
  }

  lemma NoCompletion(d: Dock, p: Poll)
    requires !Has(d.alerts, 0x0004)
    ensures CmdDone(d, p) == (if Elapsed(p.now, d.since) > 2500 then NoAnswer else Pending, d)
  {
    hide Has, Elapsed, Without;
  }

  lemma CommandsWait(d: Dock, p: Poll)
    requires CommandWait(d) && !Has(d.alerts, 0x0004)
    ensures d.state == PsRdySent ==> Waited(d, OnPsRdySent(d, p), p)
    ensures d.state == DrSwapSent ==> Waited(d, OnDrSwapSent(d, p), p)
    ensures d.state == DiscIdAcc ==> Waited(d, OnDiscIdAcc(d, p), p)
    ensures d.state == NinAcc ==> Waited(d, OnNinAcc(d, p), p)
    ensures d.state == SvidAcc ==> Waited(d, OnSvidAcc(d, p), p)
    ensures d.state == ModeAcc ==> Waited(d, OnModeAcc(d, p), p)
    ensures d.state == DpEnterSent ==> Waited(d, OnDpEnterSent(d, p), p)
    ensures d.state == DpCfgSent ==> Waited(d, OnDpCfgSent(d, p), p)
    ensures d.state == QueryAcc ==> Waited(d, OnQueryAcc(d, p), p)
    ensures d.state == LedAcc ==> Waited(d, OnLedAcc(d, p), p)
    ensures d.state == HubAcc ==> Waited(d, OnHubAcc(d, p), p)
  {
    NoCompletion(d, p);
    hide CmdDone, Has, Elapsed, RoleOf, SendVdm, DpConfigure, HubReply, HubBusy, NdMessage, CmdGo, Bit;
  }

  /** What an unfinished or a bad command comes to: nothing more than its alert taken, or failure with nothing sent. */
  predicate Unfinished(d: Dock, e: Dock, p: Poll) {
    var (c, d1) := CmdDone(d, p);
    && (c == Pending ==> e == d1)
    && (c == Refused || c == NoAnswer ==>
          e.state == Failed && e.failedState == d.state && e.sent == d.sent && e.found == d.found)
  }

  /** In every state that waits for a command: a completion while the chip is busy is taken and waited out, and a
      refused command fails, like one that is not answered. */
  lemma BadAnswers(d: Dock, p: Poll)
    requires CommandWait(d)
    ensures Unfinished(d, Handle(d, p), p)
  {
    hide Handle, OnWaitPlug, OnDpHpdWait, OnVdmSent, OnRdoSent, OnPsRdySent, OnDrSwapSent, OnDiscIdAcc, OnNinAcc,
      OnSvidAcc, OnModeAcc, OnDpEnterSent, OnDpCfgSent, OnQueryAcc, OnLedAcc, OnHubAcc, Unfinished;
    DockHubLoop.Dispatch(d, p);
    EachUnfinished(d, p);
  }

  lemma EachUnfinished(d: Dock, p: Poll)
    requires CommandWait(d)
    ensures d.state == PsRdySent ==> Unfinished(d, OnPsRdySent(d, p), p)
    ensures d.state == DrSwapSent ==> Unfinished(d, OnDrSwapSent(d, p), p)
    ensures d.state == DiscIdAcc ==> Unfinished(d, OnDiscIdAcc(d, p), p)
    ensures d.state == NinAcc ==> Unfinished(d, OnNinAcc(d, p), p)
    ensures d.state == SvidAcc ==> Unfinished(d, OnSvidAcc(d, p), p)
    ensures d.state == ModeAcc ==> Unfinished(d, OnModeAcc(d, p), p)
    ensures d.state == DpEnterSent ==> Unfinished(d, OnDpEnterSent(d, p), p)
    ensures d.state == DpCfgSent ==> Unfinished(d, OnDpCfgSent(d, p), p)
    ensures d.state == QueryAcc ==> Unfinished(d, OnQueryAcc(d, p), p)
    ensures d.state == LedAcc ==> Unfinished(d, OnLedAcc(d, p), p)
    ensures d.state == HubAcc ==> Unfinished(d, OnHubAcc(d, p), p)
  {
    CmdDoneTakes(d, p);
    hide CmdDone, Has, Elapsed, RoleOf, SendVdm, DpConfigure, HubReply, HubBusy, NdMessage, CmdGo, Bit;
  }

  lemma CmdDoneTakes(d: Dock, p: Poll)
    ensures var (c, d1) := CmdDone(d, p);
            d1 == d.(alerts := d1.alerts)
  {
    hide Has, Without, Busy, LastCmdBad, Elapsed;
  }

  /** A pulled cable, in any state past the wait for one, and a fault in any state at all: failure, with nothing sent
      and nothing found in that poll. */
  lemma PulledOrFaulty(d: Dock, p: Poll)
    requires d.state != Idle && d.state != Failed
    requires (d.state != WaitPlug && !Inserted(p.s1)) || Faulty(p.s1)
    ensures var e := Next(d, p);
            e.state == Failed && e.failedState == d.state && e.sent == d.sent && e.found == d.found
  {
    hide Handle, Inserted, Faulty, With;
  }

  /** A message goes out whole and before the command to send it; one that could not be written is not sent. */
  lemma MessageMoves(d: Dock, msg: seq<Byte>, next: State, p: Poll)
    ensures var e := SendVdm(d, msg, next, p);
            if p.wrOk then
              e.state == next && e.since == p.stamp && e.tries == 0 && e.sent == d.sent + [Vdm(msg), Cmd(0x1111)]
              && e.found == d.found
            else e.state == Failed && e.failedState == d.state && e.sent == d.sent && e.found == d.found
  {
  }

  /** The other waits: no profiles are read in the 300 ms after a plug, hot plug is waited for 1500 ms, and the hub
      is not asked in the 500 ms after the light is lit. */
  lemma OtherWaits(d: Dock, p: Poll)
    ensures d.state == WaitPlug && !Inserted(d.s1) ==> OnWaitPlug(d, p) == d
    ensures d.state == WaitPlug && Inserted(d.s1) && d.plugSeen && Elapsed(p.now, d.since) < 300 ==>
              OnWaitPlug(d, p) == d
    ensures d.state == DpHpdWait && !p.hpd && !SignalOn(d.dp) ==>
              (OnDpHpdWait(d, p) == d <==> Elapsed(p.now, d.since) <= 1500)
    ensures d.state == LedAcc && d.found.ledLit ==> (OnLedAcc(d, p) == d <==> Elapsed(p.now, d.since) < 500)
  {
    hide Inserted, SignalOn, Elapsed, Offered, NdMessage, AskForPower, CmdDone;
  }

  /** What stopping sends: the light put out when it was lit, its reply accepted when one comes, and DisplayPort
      left when it was entered. */
  lemma StopInBytes(d: Dock, replied: bool)
    requires d.state != Idle
    ensures var out := [Vdm([0x00, 0x00, 0x7E, 0x05, 1, 1, 0x01, 0x00, 128, 0, 0, 0]), Cmd(0x1111)];
            Stop(d, replied).sent == d.sent
                                     + (if !d.found.ledLit then [] else out + if replied then [Cmd(0x1616)] else [])
                                     + (if d.found.dpOn then [Cmd(0x3B3B)] else [])
  {
    assert NdMessage(true, ND_LED, [128, 0, 0, 0]) == [0x00, 0x00, 0x7E, 0x05, 1, 1, 0x01, 0x00, 128, 0, 0, 0];
    assert [] + d.sent == d.sent;
  }
}
