/** The dock handshake as usbpd.c runs it: one object whose fields each call updates in place. Every
    method is proved equal to the step function of `DockSpec`, so what `DockSafety`, `DockProgress`
    and `DockHubLoop` say of that function holds of the object. */
module DockMachine {
  import opened Bits
  import opened PowerProfiles
  import opened DockSpec
  import opened DockSafety

  class Handshake {
    var state: State
    var since: nat
    var tries: nat
    var alerts: bv16
    var s1: bv16
    var dp: bv16
    var plugSeen: bool
    /** What the run has found and settled: the profiles, the roles and the modes. */
    var found: Found
    var failedState: State
    /** What went to the controller since the start. */
    var wire: seq<Act>

    function View(): Dock
      reads this
    {
      Dock(state, since, tries, alerts, s1, dp, plugSeen, found, failedState, wire)
    }

    constructor ()
      ensures state == Idle
    {
      state, failedState := Idle, Idle;
      wire := [];
    }

    // ---------------------------------------------------------- small moves

    method Go(s: State, p: Poll)
      modifies `state, `since, `tries
      ensures View() == DockSpec.Go(old(View()), s, p)
    {
      state := s;
      since := p.stamp;
      tries := 0;
    }

    method Fail(p: Poll)
      modifies `state, `since, `tries, `failedState
      ensures View() == DockSpec.Fail(old(View()), p)
    {
      failedState := state;
      Go(Failed, p);
    }

    /** `_take`: a sticky alert bit is cleared as it is read. */
    method Take(bit: bv16) returns (was: bool)
      modifies `alerts
      ensures was == Has(old(alerts), bit)
      ensures alerts == if was then Without(old(alerts), bit) else old(alerts)
    {
      was := Has(alerts, bit);
      if was {
        alerts := Without(alerts, bit);
      }
    }

    method CmdGo(code: nat, next: State, p: Poll)
      modifies `state, `since, `tries, `alerts, `found, `wire
      ensures View() == DockSpec.CmdGo(old(View()), code, next, p)
    {
      hide Without;
      alerts := Without(alerts, AL_CMD_DONE);
      if code == CMD_DP_ENTER {
        found := found.(dpOn := true);
      }
      wire := wire + [Cmd(code)];
      Go(next, p);
    }

    method SendVdm(msg: seq<Byte>, next: State, p: Poll)
      modifies `state, `since, `tries, `failedState, `wire
      ensures View() == DockSpec.SendVdm(old(View()), msg, next, p)
    {
      if !p.wrOk {
        Fail(p);
        return;
      }
      wire := wire + [Vdm(msg)];
      wire := wire + [Cmd(CMD_SEND_VDM)];
      Go(next, p);
    }

    method CommandDone(p: Poll) returns (c: Completion)
      modifies `alerts
      ensures (c, View()) == CmdDone(old(View()), p)
    {
      hide Has, Without, Elapsed;
      var done := Take(AL_CMD_DONE);
      if !done {
        c := if Elapsed(p.now, since) > STEP_TIMEOUT then NoAnswer else Pending;
      } else if Busy(s1) {
        c := Pending;
      } else if LastCmdBad(s1) {
        c := Refused;
      } else {
        c := Complete;
      }
    }

    // ------------------------------------------------------------ the steps

    method SendRdo(p: Poll)
      requires 1 <= found.pick <= |found.pdos| && found.pdos[found.pick - 1].mv > 0
      modifies `state, `since, `tries, `found, `wire
      ensures View() == DockSpec.SendRdo(old(View()), p)
    {
      hide OpMa, Rdo;
      var mv, ma := found.pdos[found.pick - 1].mv, found.pdos[found.pick - 1].ma;
      var op := OperatingCurrent(mv, ma);
      found := found.(reqMa := op);
      wire := wire + [SetRdo(Rdo(found.pick, op, ma))];
      wire := wire + [Cmd(CMD_SEND_RDO)];
      Go(RdoSent, p);
    }

    method PickProfile() returns (any: bool)
      modifies `found
      ensures found == old(found).(pick := Choose(old(found).pdos),
                                   dockPower := old(found).dockPower || DockOffer(old(found).pdos))
      ensures any <==> Choose(old(found).pdos) != 0
    {
      hide Choose, DockOffer;
      var pick, offered := ChooseProfile(found.pdos);
      found := found.(pick := pick);
      if offered {
        found := found.(dockPower := true);
      }
      any := pick != 0;
    }

    /** One of the profiles asked for, or a failure. */
    method AskForPower(p: Poll)
      modifies `state, `since, `tries, `failedState, `alerts, `found, `wire
      ensures View() == DockSpec.AskForPower(old(View()), p)
    {
      hide Choose, DockOffer, OpMa, Rdo, DockSpec.SendRdo, DockSpec.Fail;
      var any := PickProfile();
      if !any {
        Fail(p);
        return;
      }
      alerts := 0;
      SendRdo(p);
    }

    method OnWaitPlug(p: Poll)
      modifies this
      ensures View() == DockSpec.OnWaitPlug(old(View()), p)
    {
      hide Inserted, Profiles, Elapsed, DockSpec.AskForPower, DockSpec.Fail;
      if !Inserted(s1) {
        return;
      }
      if !plugSeen {
        plugSeen := true;
        since := p.now;
      }
      if Elapsed(p.now, since) < PLUG_SETTLE {
        return;
      }
      var pdos := ReadPdos(p.pdosOk, p.pdos);
      found := found.(pdos := pdos);
      if pdos == [] {
        if Elapsed(p.now, since) > STEP_TIMEOUT {
          Fail(p);
        }
        return;
      }
      AskForPower(p);
    }

    method OnRdoSent(p: Poll)
      modifies this
      ensures View() == DockSpec.OnRdoSent(old(View()), p)
    {
      hide Has, Without, Decode, Word, Elapsed, DockSpec.CmdGo, DockSpec.Fail;
      var contract := Take(AL_CONTRACT);
      if contract {
        if p.contractOk && p.contract[0] == 4 {
          found := found.(got := Decode(Word(p.contract, 1)));
        }
        CmdGo(CMD_PS_RDY, PsRdySent, p);
      } else if Elapsed(p.now, since) > STEP_TIMEOUT {
        Fail(p);
      }
    }

    method DiscoverIdentity(p: Poll)
      modifies `state, `since, `tries, `failedState, `wire
      ensures View() == DockSpec.DiscoverIdentity(old(View()), p)
    {
      SendVdm(Structured(0x01, 0x80, 0xFF00), DiscIdSent, p);
    }

    method OnPsRdySent(p: Poll)
      modifies this
      ensures View() == DockSpec.OnPsRdySent(old(View()), p)
    {
      hide CmdDone, RoleOf, DockSpec.CmdGo, DockSpec.Fail, DockSpec.DiscoverIdentity;
      var c := CommandDone(p);
      if c == NoAnswer || c == Refused {
        Fail(p);
        return;
      }
      if c == Pending {
        return;
      }
      found := found.(role := RoleOf(s1));
      if found.role == Dfp {
        DiscoverIdentity(p);
      } else if found.role == Ufp {
        CmdGo(CMD_DR_SWAP, DrSwapSent, p);
      } else {
        Fail(p);
      }
    }

    method OnDrSwapSent(p: Poll)
      modifies this
      ensures View() == DockSpec.OnDrSwapSent(old(View()), p)
    {
      hide CmdDone, RoleOf, DockSpec.Fail, DockSpec.DiscoverIdentity;
      var c := CommandDone(p);
      if c == NoAnswer || c == Refused {
        Fail(p);
        return;
      }
      if c == Pending {
        return;
      }
      found := found.(role := RoleOf(s1));
      if found.role != Dfp {
        Fail(p);
        return;
      }
      DiscoverIdentity(p);
    }

    /** Every message: the reply arrives, is accepted, then read. */
    method OnVdmSent(p: Poll)
      requires AwaitsVdm(state)
      modifies this
      ensures View() == DockSpec.OnVdmSent(old(View()), p)
    {
      hide Has, Without, Elapsed, Accepting, DockSpec.CmdGo, DockSpec.Fail;
      var reply := Take(AL_VDM_RECEIVED);
      if reply {
        CmdGo(CMD_ACCEPT_VDM, Accepting(state), p);
      } else if Elapsed(p.now, since) > STEP_TIMEOUT {
        Fail(p);
      }
    }

    method OnDiscIdAcc(p: Poll)
      modifies this
      ensures View() == DockSpec.OnDiscIdAcc(old(View()), p)
    {
      hide CmdDone, DockSpec.SendVdm, DockSpec.Go, DockSpec.Fail, Structured;
      var c := CommandDone(p);
      if c == NoAnswer || c == Refused {
        Fail(p);
        return;
      }
      if c == Pending {
        return;
      }
      var vid := p.vdm[5] + 0x100 * p.vdm[6] as int;
      var pid := p.vdm[15] + 0x100 * p.vdm[16] as int;
      var kind := p.vdm[8] / 8 % 8;
      if p.vdm[1] != 0x41 {
        Fail(p);
        return;
      }
      found := found.(ninDock := vid == VID_NINTENDO && pid == PID_DOCK && kind == 5,
                      ninCharger := vid == VID_NINTENDO && pid == PID_CHARGER);
      if found.ninDock {
        SendVdm(Structured(0x04, 0x81, VID_NINTENDO), NinSent, p);
      } else if found.ninCharger {
        Go(Done, p);
      } else {
        SendVdm(Structured(0x02, 0x80, 0xFF00), SvidSent, p);
      }
    }

    method OnNinAcc(p: Poll)
      modifies this
      ensures View() == DockSpec.OnNinAcc(old(View()), p)
    {
      hide CmdDone, DockSpec.CmdGo, DockSpec.Fail;
      var c := CommandDone(p);
      if c == NoAnswer || c == Refused {
        Fail(p);
        return;
      }
      if c == Pending {
        return;
      }
      if !(p.vdm[1] == 0x44 && p.vdm[2] == 0x81 && p.vdm[3] == 0x7E && p.vdm[4] == 0x05) {
        Fail(p);
        return;
      }
      found := found.(ninMode := true);
      CmdGo(CMD_DP_ENTER, DpEnterSent, p);
    }

    method OnSvidAcc(p: Poll)
      modifies this
      ensures View() == DockSpec.OnSvidAcc(old(View()), p)
    {
      hide CmdDone, DockSpec.SendVdm, DockSpec.Fail, Structured;
      var c := CommandDone(p);
      if c == NoAnswer || c == Refused {
        Fail(p);
        return;
      }
      if c == Pending {
        return;
      }
      if p.vdm[1] != 0x42 {
        Fail(p);
        return;
      }
      SendVdm(Structured(0x03, 0x80, 0xFF01), ModeSent, p);
    }

    method OnModeAcc(p: Poll)
      modifies this
      ensures View() == DockSpec.OnModeAcc(old(View()), p)
    {
      hide CmdDone, DockSpec.CmdGo, DockSpec.Fail, Bit;
      var c := CommandDone(p);
      if c == NoAnswer || c == Refused {
        Fail(p);
        return;
      }
      if c == Pending {
        return;
      }
      if !(p.vdm[0] > 4 && p.vdm[1] == 0x43 && p.vdm[3] == 0x01 && p.vdm[4] == 0xFF
           && Bit(p.vdm[5], 0) && Bit(p.vdm[5], 2)) {
        Fail(p);
        return;
      }
      CmdGo(CMD_DP_ENTER, DpEnterSent, p);
    }

    method DpConfigure(p: Poll)
      modifies this
      ensures View() == DockSpec.DpConfigure(old(View()), p)
    {
      hide DockSpec.CmdGo, DockSpec.Fail, Bit;
      var pins := Pins(found.ninDock, p.vdm);
      var pin: Byte := 0;
      if Bit(pins, 3) {
        pin := 8;
        found := found.(lanes := 2);
      } else if Bit(pins, 2) {
        pin := 4;
        found := found.(lanes := 4);
      }
      if p.vdm[0] != 4 || pin == 0 {
        Fail(p);
        return;
      }
      var cfg: seq<Byte> := [6, 0, 0, 0];
      if found.ninDock {
        cfg := cfg[2 := pin];
      } else {
        cfg := cfg[1 := pin];
      }
      assert cfg == if found.ninDock then [6, 0, pin, 0] else [6, pin, 0, 0];
      wire := wire + [DpConfig(cfg)];
      CmdGo(CMD_DP_CFG, DpCfgSent, p);
    }

    method OnDpEnterSent(p: Poll)
      modifies this
      ensures View() == DockSpec.OnDpEnterSent(old(View()), p)
    {
      hide CmdDone, DockSpec.DpConfigure, DockSpec.Fail;
      var c := CommandDone(p);
      if c == NoAnswer || c == Refused {
        Fail(p);
        return;
      }
      if c == Pending {
        return;
      }
      DpConfigure(p);
    }

    method OnDpCfgSent(p: Poll)
      modifies this
      ensures View() == DockSpec.OnDpCfgSent(old(View()), p)
    {
      hide CmdDone, DockSpec.Go, DockSpec.Fail;
      var c := CommandDone(p);
      if c == NoAnswer || c == Refused {
        Fail(p);
        return;
      }
      if c == Pending {
        return;
      }
      Go(DpHpdWait, p);
    }

    method OnDpHpdWait(p: Poll)
      modifies this
      ensures View() == DockSpec.OnDpHpdWait(old(View()), p)
    {
      hide Elapsed, SignalOn, DockSpec.SendVdm, DockSpec.Go, NdMessage;
      if p.hpd || SignalOn(dp) || Elapsed(p.now, since) > DP_HPD_WAIT {
        if found.ninDock {
          SendVdm(NdMessage(false, ND_STATE, []), QuerySent, p);
        } else {
          Go(Done, p);
        }
      }
    }

    method OnQueryAcc(p: Poll)
      modifies this
      ensures View() == DockSpec.OnQueryAcc(old(View()), p)
    {
      hide CmdDone, DockSpec.SendVdm, DockSpec.Fail, NdMessage;
      var c := CommandDone(p);
      if c == NoAnswer || c == Refused {
        Fail(p);
        return;
      }
      if c == Pending {
        return;
      }
      SendVdm(NdMessage(true, ND_LED, LED_ON), LedSent, p);
    }

    method OnLedAcc(p: Poll)
      modifies this
      ensures View() == DockSpec.OnLedAcc(old(View()), p)
    {
      hide CmdDone, Elapsed, DockSpec.SendVdm, DockSpec.Fail, NdMessage;
      if !found.ledLit {
        var c := CommandDone(p);
        if c == NoAnswer || c == Refused {
          Fail(p);
          return;
        }
        if c == Pending {
          return;
        }
        found := found.(ledLit := true);
        since := p.stamp;
        return;
      }
      if Elapsed(p.now, since) < LED_SETTLE {
        return;
      }
      SendVdm(NdMessage(true, ND_HUB, []), HubSent, p);
    }

    method OnHubAcc(p: Poll)
      modifies this
      ensures View() == DockSpec.OnHubAcc(old(View()), p)
    {
      hide CmdDone, DockSpec.SendVdm, DockSpec.Go, DockSpec.Fail, NdMessage, HubReply, HubBusy;
      var c := CommandDone(p);
      if c == NoAnswer || c == Refused {
        Fail(p);
        return;
      }
      if c == Pending {
        return;
      }
      if HubReply(p.vdm) {
        if HubBusy(p.vdm) && tries < 10 {
          tries := tries + 1;
          SendVdm(NdMessage(true, ND_HUB, []), HubSent, p);
          return;
        }
        found := found.(hubUp := !HubBusy(p.vdm));
      }
      Go(Done, p);
    }

    method Handle(p: Poll)
      requires state != Idle && state != Failed
      modifies this
      ensures View() == DockSpec.Handle(old(View()), p)
    {
      hide DockSpec.OnVdmSent, DockSpec.OnWaitPlug, DockSpec.OnRdoSent, DockSpec.OnPsRdySent, DockSpec.OnDrSwapSent,
        DockSpec.OnDiscIdAcc, DockSpec.OnNinAcc, DockSpec.OnSvidAcc, DockSpec.OnModeAcc, DockSpec.OnDpEnterSent,
        DockSpec.OnDpCfgSent, DockSpec.OnDpHpdWait, DockSpec.OnQueryAcc, DockSpec.OnLedAcc, DockSpec.OnHubAcc;
      match state
      case WaitPlug => OnWaitPlug(p);
      case RdoSent => OnRdoSent(p);
      case PsRdySent => OnPsRdySent(p);
      case DrSwapSent => OnDrSwapSent(p);
      case DiscIdSent | NinSent | SvidSent | ModeSent | QuerySent | LedSent | HubSent => OnVdmSent(p);
      case DiscIdAcc => OnDiscIdAcc(p);
      case NinAcc => OnNinAcc(p);
      case SvidAcc => OnSvidAcc(p);
      case ModeAcc => OnModeAcc(p);
      case DpEnterSent => OnDpEnterSent(p);
      case DpCfgSent => OnDpCfgSent(p);
      case DpHpdWait => OnDpHpdWait(p);
      case QueryAcc => OnQueryAcc(p);
      case LedAcc => OnLedAcc(p);
      case HubAcc => OnHubAcc(p);
      case Done =>
    }

    // ------------------------------------------------------------- the calls

    /** `dock_start`. */
    method Begin(p: Poll)
      modifies this
      ensures View() == Start(p) && Inv(View())
    {
      hide Inv;
      state, failedState, tries := Idle, Idle, 0;
      alerts, s1, dp, plugSeen := 0, 0, 0, false;
      found, wire := NothingFound(), [];
      Go(WaitPlug, p);
      StartIsGood(p);
    }

    /** `dock_step`: one poll. */
    method Step(p: Poll)
      modifies this
      ensures View() == Next(old(View()), p)
      ensures Inv(old(View())) ==> Inv(View())
    {
      hide Inv, DockSpec.Handle, DockSpec.Fail, Has, With, Rank;
      if old(Inv(View())) {
        NextKeeps(View(), p);
      }
      if state == Idle || state == Failed {
        return;
      }
      alerts := With(alerts, p.alert);
      s1 := p.s1;
      dp := p.dp;
      if Rank(state) > Rank(WaitPlug) && !Inserted(s1) {
        Fail(p);
        return;
      }
      if Faulty(s1) {
        Fail(p);
        return;
      }
      Handle(p);
    }

    /** `dock_stop`. */
    method End(replied: bool)
      modifies `state, `wire
      ensures View() == Stop(old(View()), replied)
    {
      hide NdMessage;
      if state == Idle {
        return;
      }
      if found.ledLit {
        wire := wire + [LIGHT_OFF, Cmd(CMD_SEND_VDM)];
        if replied {
          wire := wire + [Cmd(CMD_ACCEPT_VDM)];
        }
      }
      if found.dpOn {
        wire := wire + [Cmd(CMD_DP_EXIT)];
      }
      state := Idle;
    }

    /** A whole run, polled as the screen polls it, and stopped: DisplayPort is left as often as it
        was entered, whatever was answered. */
    method Session(first: Poll, polls: seq<Poll>, replied: bool)
      modifies this
      ensures state == Idle
      ensures View() == Stop(Run(Start(first), polls), replied)
      ensures Times(wire, CMD_DP_ENTER) == Times(wire, CMD_DP_EXIT)
    {
      hide Inv, Next, Start, Stop, Times;
      Begin(first);
      for i := 0 to |polls|
        invariant Run(View(), polls[i..]) == Run(Start(first), polls)
        invariant Inv(View())
      {
        assert polls[i..][1..] == polls[i + 1..];
        Step(polls[i]);
      }
      NotIdle(View());
      End(replied);
      RunThenStopBalances(first, polls, replied);
      StopMatches(Run(Start(first), polls), replied);
    }
  }

  lemma NotIdle(d: Dock)
    requires Inv(d)
    ensures d.state != Idle
  {
    hide Good;
  }
}
