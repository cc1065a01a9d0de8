/** One poll of the dock handshake (`dock_step`, usbpd.c) as a function of the controller's answers.

    A controller may answer anything: a `Poll` holds what one call reads. `now` is the clock when
    the call compares times and `stamp` the clock when it records one, after any wait inside the
    call; both count milliseconds without wrapping, and the code's 32-bit subtraction is written
    out in `Elapsed`. */
module DockSpec {
  import opened Bits
  import opened PowerProfiles

  datatype State =
    | Idle | WaitPlug | RdoSent | PsRdySent | DrSwapSent
    | DiscIdSent | DiscIdAcc | NinSent | NinAcc | SvidSent | SvidAcc | ModeSent | ModeAcc
    | DpEnterSent | DpCfgSent | DpHpdWait
    | QuerySent | QueryAcc | LedSent | LedAcc | HubSent | HubAcc
    | Done | Failed

  /** The enumeration's order. */
  function Rank(s: State): nat {
    match s
    case Idle => 0
    case WaitPlug => 1
    case RdoSent => 2
    case PsRdySent => 3
    case DrSwapSent => 4
    case DiscIdSent => 5
    case DiscIdAcc => 6
    case NinSent => 7
    case NinAcc => 8
    case SvidSent => 9
    case SvidAcc => 10
    case ModeSent => 11
    case ModeAcc => 12
    case DpEnterSent => 13
    case DpCfgSent => 14
    case DpHpdWait => 15
    case QuerySent => 16
    case QueryAcc => 17
    case LedSent => 18
    case LedAcc => 19
    case HubSent => 20
    case HubAcc => 21
    case Done => 22
    case Failed => 23
  }

  /** A message sent and not answered yet; the next state accepts the answer. */
  predicate AwaitsVdm(s: State) {
    s in {DiscIdSent, NinSent, SvidSent, ModeSent, QuerySent, LedSent, HubSent}
  }

  function Accepting(s: State): State
    requires AwaitsVdm(s)
  {
    match s
    case DiscIdSent => DiscIdAcc
    case NinSent => NinAcc
    case SvidSent => SvidAcc
    case ModeSent => ModeAcc
    case QuerySent => QueryAcc
    case LedSent => LedAcc
    case HubSent => HubAcc
  }

  // ------------------------------------------------------ registers and words

  const AL_CMD_DONE: bv16 := 0x0004
  const AL_VDM_RECEIVED: bv16 := 0x0800
  const AL_CONTRACT: bv16 := 0x1000

  function Has(w: bv16, mask: bv16): bool {
    w & mask != 0
  }

  function With(w: bv16, more: bv16): bv16 {
    w | more
  }

  function Without(w: bv16, mask: bv16): bv16 {
    w & !mask
  }

  predicate Faulty(s1: bv16) {
    Has(s1, 0x0003)
  }

  predicate LastCmdBad(s1: bv16) {
    Has(s1, 0x0070)
  }

  predicate Inserted(s1: bv16) {
    Has(s1, 0x0080)
  }

  predicate Busy(s1: bv16) {
    Has(s1, 0x2000)
  }

  predicate SignalOn(dp: bv16) {
    Has(dp, 0x0080)
  }

  datatype Role = NoRole | Ufp | Dfp

  function RoleOf(s1: bv16): Role {
    var r := (s1 & 0x0300) >> 8;
    if r == 2 then Dfp else if r == 1 then Ufp else NoRole
  }

  predicate Bit(b: Byte, k: nat)
    requires k < 8
  {
    b / [1, 2, 4, 8, 16, 32, 64, 128][k] % 2 == 1
  }

  // ------------------------------------------------------------- the commands

  const CMD_PS_RDY := 0x0505
  const CMD_SEND_RDO := 0x0707
  const CMD_SEND_VDM := 0x1111
  const CMD_ACCEPT_VDM := 0x1616
  const CMD_DR_SWAP := 0x1818
  const CMD_DP_ENTER := 0x3131
  const CMD_DP_CFG := 0x3636
  const CMD_DP_EXIT := 0x3B3B

  /** What goes over the wire to the controller. */
  datatype Act = Cmd(code: nat) | Vdm(msg: seq<Byte>) | SetRdo(word: nat) | DpConfig(cfg: seq<Byte>)

  /** Discover Identity, SVIDs, Modes and Enter Mode (section 6.4.4 of the R3.0 specification). */
  function Structured(cmd: Byte, hdr: Byte, svid: nat): seq<Byte>
    requires svid < 0x1_0000
  {
    [cmd, hdr, svid % 0x100, svid / 0x100]
  }

  /** The dock's own requests. */
  function NdMessage(write: bool, cmd: Byte, extra: seq<Byte>): seq<Byte> {
    [0x00, 0x00, 0x7E, 0x05, if write then 1 else 0, 1, cmd, 0x00] + extra
  }

  predicate IsNd(a: Act) {
    a.Vdm? && |a.msg| >= 8
  }

  const ND_STATE: Byte := 0x16
  const ND_LED: Byte := 0x01
  const ND_HUB: Byte := 0x20
  const LED_ON: seq<Byte> := [64, 0, 0, 128]

  // ------------------------------------------------------------------- state

  type Block29 = s: seq<Byte> | |s| == 29 witness seq(29, i => 0)
  type Block5 = s: seq<Byte> | |s| == 5 witness seq(5, i => 0)

  datatype Poll = Poll(
    now: nat, stamp: nat,
    alert: bv16, s1: bv16, dp: bv16,
    pdosOk: bool, pdos: Block29,
    contractOk: bool, contract: Block5,
    vdm: Block29, wrOk: bool, hpd: bool)

  /** What the run has found and settled so far. */
  datatype Found = Found(
    pdos: seq<Profile>, pick: nat, dockPower: bool, reqMa: nat, got: Profile,
    role: Role, ninDock: bool, ninCharger: bool, ninMode: bool, dpOn: bool,
    lanes: nat, ledLit: bool, hubUp: bool)

  datatype Dock = Dock(
    state: State, since: nat, tries: nat,
    alerts: bv16, s1: bv16, dp: bv16, plugSeen: bool,
    found: Found, failedState: State, sent: seq<Act>)

  const STEP_TIMEOUT := 2500
  const PLUG_SETTLE := 300
  const DP_HPD_WAIT := 1500
  const LED_SETTLE := 500

  predicate TimedOut(d: Dock, p: Poll) {
    Elapsed(p.now, d.since) > STEP_TIMEOUT
  }

  // ------------------------------------------------------------ the small moves

  function NothingFound(): Found {
    Found([], 0, false, 0, Profile(0, 0), NoRole, false, false, false, false, 0, false, false)
  }

  /** `dock_start`: everything forgotten. */
  function Start(p: Poll): Dock {
    Dock(WaitPlug, p.stamp, 0, 0, 0, 0, false, NothingFound(), Idle, [])
  }

  function Go(d: Dock, s: State, p: Poll): Dock {
    d.(state := s, since := p.stamp, tries := 0)
  }

  function Fail(d: Dock, p: Poll): Dock {
    Go(d.(failedState := d.state), Failed, p)
  }

  function Issue(d: Dock, code: nat): Dock {
    d.(sent := d.sent + [Cmd(code)])
  }

  /** `_cmd_go`: a completion left over from an earlier command must not count for this one. */
  function CmdGo(d: Dock, code: nat, next: State, p: Poll): Dock {
    var d1 := d.(alerts := Without(d.alerts, AL_CMD_DONE),
                 found := if code == CMD_DP_ENTER then d.found.(dpOn := true) else d.found);
    Go(Issue(d1, code), next, p)
  }

  function SendVdm(d: Dock, msg: seq<Byte>, next: State, p: Poll): Dock {
    if !p.wrOk then Fail(d, p)
    else Go(Issue(d.(sent := d.sent + [Vdm(msg)]), CMD_SEND_VDM), next, p)
  }

  datatype Completion = Pending | NoAnswer | Refused | Complete

  /** `_cmd_done`. A completion that arrives while the chip is busy is consumed and not waited out. */
  function CmdDone(d: Dock, p: Poll): (Completion, Dock) {
    if !Has(d.alerts, AL_CMD_DONE) then (if TimedOut(d, p) then NoAnswer else Pending, d)
    else
      var d1 := d.(alerts := Without(d.alerts, AL_CMD_DONE));
      (if Busy(d.s1) then Pending else if LastCmdBad(d.s1) then Refused else Complete, d1)
  }

  // ---------------------------------------------------------------- the steps

  function SendRdo(d: Dock, p: Poll): Dock
    requires 1 <= d.found.pick <= |d.found.pdos|
    requires d.found.pdos[d.found.pick - 1].mv > 0
  {
    var prof := d.found.pdos[d.found.pick - 1];
    var op := OpMa(prof.mv, prof.ma);
    var d1 := d.(found := d.found.(reqMa := op), sent := d.sent + [SetRdo(Rdo(d.found.pick, op, prof.ma))]);
    Go(Issue(d1, CMD_SEND_RDO), RdoSent, p)
  }

  /** The profiles are in: one is asked for, or none will do. */
  function AskForPower(d: Dock, p: Poll): Dock {
    var pick := Choose(d.found.pdos);
    var d1 := d.(found := d.found.(pick := pick, dockPower := d.found.dockPower || DockOffer(d.found.pdos)));
    if pick == 0 then Fail(d1, p) else SendRdo(d1.(alerts := 0), p)
  }

  function Offered(p: Poll): (ps: seq<Profile>)
    ensures |ps| <= MAX_PROFILES
  {
    if p.pdosOk then Profiles(p.pdos) else []
  }

  function OnWaitPlug(d: Dock, p: Poll): Dock {
    if !Inserted(d.s1) then d
    else
      var d1 := if d.plugSeen then d else d.(plugSeen := true, since := p.now);
      if Elapsed(p.now, d1.since) < PLUG_SETTLE then d1
      else
        var d2 := d1.(found := d1.found.(pdos := Offered(p)));
        if d2.found.pdos != [] then AskForPower(d2, p)
        else if TimedOut(d2, p) then Fail(d2, p)
        else d2
  }

  function OnRdoSent(d: Dock, p: Poll): Dock {
    if Has(d.alerts, AL_CONTRACT) then
      var d1 := d.(alerts := Without(d.alerts, AL_CONTRACT));
      var d2 := if p.contractOk && p.contract[0] == 4
                then d1.(found := d1.found.(got := Decode(Word(p.contract, 1)))) else d1;
      CmdGo(d2, CMD_PS_RDY, PsRdySent, p)
    else if TimedOut(d, p) then Fail(d, p)
    else d
  }

  function DiscoverIdentity(d: Dock, p: Poll): Dock {
    SendVdm(d, Structured(0x01, 0x80, 0xFF00), DiscIdSent, p)
  }

  function OnPsRdySent(d: Dock, p: Poll): Dock {
    var (c, d1) := CmdDone(d, p);
    match c
    case Pending => d1
    case NoAnswer => Fail(d1, p)
    case Refused => Fail(d1, p)
    case Complete =>
      var d2 := d1.(found := d1.found.(role := RoleOf(d1.s1)));
      match d2.found.role
      case Dfp => DiscoverIdentity(d2, p)
      case Ufp => CmdGo(d2, CMD_DR_SWAP, DrSwapSent, p)
      case NoRole => Fail(d2, p)
  }

  function OnDrSwapSent(d: Dock, p: Poll): Dock {
    var (c, d1) := CmdDone(d, p);
    match c
    case Pending => d1
    case NoAnswer => Fail(d1, p)
    case Refused => Fail(d1, p)
    case Complete =>
      var d2 := d1.(found := d1.found.(role := RoleOf(d1.s1)));
      if d2.found.role == Dfp then DiscoverIdentity(d2, p) else Fail(d2, p)
  }

  function OnVdmSent(d: Dock, p: Poll): Dock
    requires AwaitsVdm(d.state)
  {
    if Has(d.alerts, AL_VDM_RECEIVED) then
      CmdGo(d.(alerts := Without(d.alerts, AL_VDM_RECEIVED)), CMD_ACCEPT_VDM, Accepting(d.state), p)
    else if TimedOut(d, p) then Fail(d, p)
    else d
  }

  const VID_NINTENDO := 0x057E
  const PID_DOCK := 0x2003
  const PID_CHARGER := 0x2004

  function OnDiscIdAcc(d: Dock, p: Poll): Dock {
    var (c, d1) := CmdDone(d, p);
    match c
    case Pending => d1
    case NoAnswer => Fail(d1, p)
    case Refused => Fail(d1, p)
    case Complete =>
      var vid, pid, kind := p.vdm[5] + 0x100 * p.vdm[6] as int, p.vdm[15] + 0x100 * p.vdm[16] as int, p.vdm[8] / 8 % 8;
      if p.vdm[1] != 0x41 then Fail(d1, p)
      else
        var d2 := d1.(found := d1.found.(ninDock := vid == VID_NINTENDO && pid == PID_DOCK && kind == 5,
                                         ninCharger := vid == VID_NINTENDO && pid == PID_CHARGER));
        if d2.found.ninDock then SendVdm(d2, Structured(0x04, 0x81, VID_NINTENDO), NinSent, p)
        else if d2.found.ninCharger then Go(d2, Done, p)
        else SendVdm(d2, Structured(0x02, 0x80, 0xFF00), SvidSent, p)
  }

  function OnNinAcc(d: Dock, p: Poll): Dock {
    var (c, d1) := CmdDone(d, p);
    match c
    case Pending => d1
    case NoAnswer => Fail(d1, p)
    case Refused => Fail(d1, p)
    case Complete =>
      if p.vdm[1] == 0x44 && p.vdm[2] == 0x81 && p.vdm[3] == 0x7E && p.vdm[4] == 0x05
      then CmdGo(d1.(found := d1.found.(ninMode := true)), CMD_DP_ENTER, DpEnterSent, p)
      else Fail(d1, p)
  }

  function OnSvidAcc(d: Dock, p: Poll): Dock {
    var (c, d1) := CmdDone(d, p);
    match c
    case Pending => d1
    case NoAnswer => Fail(d1, p)
    case Refused => Fail(d1, p)
    case Complete =>
      if p.vdm[1] == 0x42 then SendVdm(d1, Structured(0x03, 0x80, 0xFF01), ModeSent, p) else Fail(d1, p)
  }

  function OnModeAcc(d: Dock, p: Poll): Dock {
    var (c, d1) := CmdDone(d, p);
    match c
    case Pending => d1
    case NoAnswer => Fail(d1, p)
    case Refused => Fail(d1, p)
    case Complete =>
      if p.vdm[0] > 4 && p.vdm[1] == 0x43 && p.vdm[3] == 0x01 && p.vdm[4] == 0xFF
         && Bit(p.vdm[5], 0) && Bit(p.vdm[5], 2)
      then CmdGo(d1, CMD_DP_ENTER, DpEnterSent, p)
      else Fail(d1, p)
  }

  /** The pin assignments the other end can take: a Nintendo dock answers on the receptacle ones
      though it reports a plug. */
  function Pins(ninDock: bool, msg: seq<Byte>): Byte
    requires |msg| >= 5
  {
    if ninDock || Bit(msg[1], 6) then msg[3] else msg[2]
  }

  /** Two lanes on assignment D, else four on C, else none. */
  function PinOf(pins: Byte): Byte {
    if Bit(pins, 3) then 8 else if Bit(pins, 2) then 4 else 0
  }

  function LanesOf(pin: Byte): nat {
    if pin == 8 then 2 else 4
  }

  function DpConfigure(d: Dock, p: Poll): Dock {
    var pin := PinOf(Pins(d.found.ninDock, p.vdm));
    var d1 := if pin == 0 then d else d.(found := d.found.(lanes := LanesOf(pin)));
    if p.vdm[0] != 4 || pin == 0 then Fail(d1, p)
    else
      var cfg := if d.found.ninDock then [6, 0, pin, 0] else [6, pin, 0, 0];
      CmdGo(d1.(sent := d1.sent + [DpConfig(cfg)]), CMD_DP_CFG, DpCfgSent, p)
  }

  function OnDpEnterSent(d: Dock, p: Poll): Dock {
    var (c, d1) := CmdDone(d, p);
    match c
    case Pending => d1
    case NoAnswer => Fail(d1, p)
    case Refused => Fail(d1, p)
    case Complete => DpConfigure(d1, p)
  }

  function OnDpCfgSent(d: Dock, p: Poll): Dock {
    var (c, d1) := CmdDone(d, p);
    match c
    case Pending => d1
    case NoAnswer => Fail(d1, p)
    case Refused => Fail(d1, p)
    case Complete => Go(d1, DpHpdWait, p)
  }

  function OnDpHpdWait(d: Dock, p: Poll): Dock {
    if p.hpd || SignalOn(d.dp) || Elapsed(p.now, d.since) > DP_HPD_WAIT then
      if d.found.ninDock then SendVdm(d, NdMessage(false, ND_STATE, []), QuerySent, p) else Go(d, Done, p)
    else d
  }

  function OnQueryAcc(d: Dock, p: Poll): Dock {
    var (c, d1) := CmdDone(d, p);
    match c
    case Pending => d1
    case NoAnswer => Fail(d1, p)
    case Refused => Fail(d1, p)
    case Complete => SendVdm(d1, NdMessage(true, ND_LED, LED_ON), LedSent, p)
  }

  function OnLedAcc(d: Dock, p: Poll): Dock {
    if !d.found.ledLit then
      var (c, d1) := CmdDone(d, p);
      match c
      case Pending => d1
      case NoAnswer => Fail(d1, p)
      case Refused => Fail(d1, p)
      case Complete => d1.(found := d1.found.(ledLit := true), since := p.stamp)
    else if Elapsed(p.now, d.since) < LED_SETTLE then d
    else SendVdm(d, NdMessage(true, ND_HUB, []), HubSent, p)
  }

  /** The reply to the hub request names the dock, the request and whether it is busy. */
  predicate HubReply(vdm: Block29) {
    vdm[6] == 2 && vdm[7] == ND_HUB + 1
  }

  predicate HubBusy(vdm: Block29) {
    Bit(vdm[5], 0)
  }

  function OnHubAcc(d: Dock, p: Poll): Dock {
    var (c, d1) := CmdDone(d, p);
    match c
    case Pending => d1
    case NoAnswer => Fail(d1, p)
    case Refused => Fail(d1, p)
    case Complete =>
      if HubReply(p.vdm) && HubBusy(p.vdm) && d1.tries < 10 then
        SendVdm(d1.(tries := d1.tries + 1), NdMessage(true, ND_HUB, []), HubSent, p)
      else
        Go(if HubReply(p.vdm) then d1.(found := d1.found.(hubUp := !HubBusy(p.vdm))) else d1, Done, p)
  }

  function Handle(d: Dock, p: Poll): Dock
    requires d.state != Idle && d.state != Failed
  {
    if AwaitsVdm(d.state) then OnVdmSent(d, p)
    else
      match d.state
      case WaitPlug => OnWaitPlug(d, p)
      case RdoSent => OnRdoSent(d, p)
      case PsRdySent => OnPsRdySent(d, p)
      case DrSwapSent => OnDrSwapSent(d, p)
      case DiscIdAcc => OnDiscIdAcc(d, p)
      case NinAcc => OnNinAcc(d, p)
      case SvidAcc => OnSvidAcc(d, p)
      case ModeAcc => OnModeAcc(d, p)
      case DpEnterSent => OnDpEnterSent(d, p)
      case DpCfgSent => OnDpCfgSent(d, p)
      case DpHpdWait => OnDpHpdWait(d, p)
      case QueryAcc => OnQueryAcc(d, p)
      case LedAcc => OnLedAcc(d, p)
      case HubAcc => OnHubAcc(d, p)
      case Done => d
  }

  /** The registers read at the top of every poll; alert bits stay until they are taken. */
  function Sample(d: Dock, p: Poll): Dock {
    d.(alerts := With(d.alerts, p.alert), s1 := p.s1, dp := p.dp)
  }

  function Next(d: Dock, p: Poll): Dock {
    if d.state == Idle || d.state == Failed then d
    else
      var d1 := Sample(d, p);
      if (Rank(d1.state) > Rank(WaitPlug) && !Inserted(d1.s1)) || Faulty(d1.s1) then Fail(d1, p)
      else Handle(d1, p)
  }

  const LIGHT_OFF: Act := Vdm(NdMessage(true, ND_LED, [128, 0, 0, 0]))

  function PutOut(d: Dock, replied: bool): seq<Act> {
    if !d.found.ledLit then []
    else [LIGHT_OFF, Cmd(CMD_SEND_VDM)] + (if replied then [Cmd(CMD_ACCEPT_VDM)] else [])
  }

  function Leave(d: Dock): seq<Act> {
    if d.found.dpOn then [Cmd(CMD_DP_EXIT)] else []
  }

  /** `dock_stop`: the light off when it was lit, DisplayPort left when it was entered. The reply to
      the light message may never come. */
  function Stop(d: Dock, replied: bool): Dock {
    if d.state == Idle then d else d.(state := Idle, sent := d.sent + PutOut(d, replied) + Leave(d))
  }

  function Run(d: Dock, ps: seq<Poll>): Dock
    decreases |ps|
  {
    if ps == [] then d else Run(Next(d, ps[0]), ps[1..])
  }
}
