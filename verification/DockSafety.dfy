/** What every reachable state of the dock handshake keeps, whatever the controller answers. */
module DockSafety {
  import opened Bits
  import opened PowerProfiles
  import opened DockSpec

  /** The state reached: where it stands, or where it failed. */
  function Reached(d: Dock): State {
    if d.state == Failed then d.failedState else d.state
  }

  /** The request made: the pick indexes an offered profile this console takes, and it is the one the
      choice rule names. */
  ghost predicate Asked(f: Found) {
    1 <= f.pick <= |f.pdos| && Picks(f.pdos, f.pick)
    && Admissible(f.pdos[f.pick - 1])
    && f.reqMa == OpMa(f.pdos[f.pick - 1].mv, f.pdos[f.pick - 1].ma)
  }

  ghost function RequestWord(f: Found): nat {
    if 1 <= f.pick <= |f.pdos| then Rdo(f.pick, f.reqMa, f.pdos[f.pick - 1].ma) else 0
  }

  // ---------------------------------------------------------------- the wire

  ghost function Times(sent: seq<Act>, code: nat): nat {
    multiset(sent)[Cmd(code)]
  }

  /** The configuration message for the lanes settled on: two on assignment D, four on C, in the byte
      the other end looks at. */
  function ConfigOf(f: Found): seq<Byte> {
    var pin: Byte := if f.lanes == 2 then 8 else 4;
    if f.ninDock then [6, 0, pin, 0] else [6, pin, 0, 0]
  }

  /** What the messages sent so far may rely on. */
  datatype Claims = Claims(entered: bool, nin: bool, asked: bool, word: nat, configured: bool, cfg: seq<Byte>)

  ghost function ClaimsOf(f: Found, s: State): Claims {
    Claims(f.dpOn, f.ninDock && f.ninMode, Rank(s) >= Rank(RdoSent), RequestWord(f),
           Rank(s) >= Rank(DpCfgSent), ConfigOf(f))
  }

  /** What has been sent: DisplayPort entered once if at all and never left, dock messages only in the
      dock's own mode, a configuration only in DisplayPort mode and for the lanes settled on, and one
      power request. */
  ghost predicate Wire(sent: seq<Act>, c: Claims) {
    && Times(sent, CMD_DP_ENTER) == (if c.entered then 1 else 0)
    && Times(sent, CMD_DP_EXIT) == 0
    && (forall a :: a in sent ==> Fits(a, c))
  }

  ghost predicate Fits(a: Act, c: Claims) {
    && (IsNd(a) ==> c.nin)
    && (a == Cmd(CMD_DP_CFG) || a.DpConfig? ==> c.entered)
    && (a.DpConfig? ==> c.configured && a.cfg == c.cfg)
    && (a.SetRdo? ==> c.asked && a.word == c.word)
  }

  lemma WireAppend(sent: seq<Act>, a: Act, c: Claims)
    requires Wire(sent, c) && Fits(a, c)
    requires a != Cmd(CMD_DP_ENTER) && a != Cmd(CMD_DP_EXIT)
    ensures Wire(sent + [a], c)
  {
    assert multiset(sent + [a]) == multiset(sent) + multiset{a};
  }

  lemma WireEnters(sent: seq<Act>, c: Claims)
    requires Wire(sent, c) && !c.entered
    ensures Wire(sent + [Cmd(CMD_DP_ENTER)], c.(entered := true))
  {
    assert multiset(sent + [Cmd(CMD_DP_ENTER)]) == multiset(sent) + multiset{Cmd(CMD_DP_ENTER)};
  }

  /** What has been claimed stays claimed. */
  predicate Extends(c: Claims, d: Claims) {
    && d.entered == c.entered && (c.nin ==> d.nin)
    && (c.asked ==> d.asked && d.word == c.word)
    && (c.configured ==> d.configured && d.cfg == c.cfg)
  }

  /** Nothing sent so far depends on what is not claimed yet. */
  lemma WireAllows(sent: seq<Act>, c: Claims, d: Claims)
    requires Wire(sent, c) && Extends(c, d)
    ensures Wire(sent, d)
  {
    forall a | a in sent
      ensures Fits(a, d)
    {
      assert Fits(a, c);
    }
  }

  // ----------------------------------------------------------- the invariant

  ghost predicate Flags(f: Found, s: State) {
    && Rank(WaitPlug) <= Rank(s) <= Rank(Done)
    && |f.pdos| <= MAX_PROFILES
    && !(f.ninDock && f.ninCharger) && (f.ninMode ==> f.ninDock)
    && (Rank(s) >= Rank(RdoSent) ==> Asked(f))
    && (Rank(s) >= Rank(DiscIdSent) ==> f.role == Dfp)
    && (s == NinSent || s == NinAcc ==> f.ninDock)
    && (Rank(SvidSent) <= Rank(s) <= Rank(ModeAcc) ==> !f.ninDock && !f.ninCharger)
    && (Rank(s) <= Rank(ModeAcc) ==> !f.dpOn && !f.ninMode)
    && (Rank(DpEnterSent) <= Rank(s) <= Rank(HubAcc) ==> f.dpOn && (f.ninDock <==> f.ninMode) && !f.ninCharger)
    && (Rank(DpCfgSent) <= Rank(s) <= Rank(HubAcc) ==> f.lanes == 2 || f.lanes == 4)
    && (Rank(QuerySent) <= Rank(s) <= Rank(HubAcc) ==> f.ninDock)
    && (s == Done ==> if f.ninCharger then !f.dpOn
                      else f.dpOn && (f.lanes == 2 || f.lanes == 4) && (f.ninDock <==> f.ninMode))
    && (f.ledLit ==> s == LedAcc || s == HubSent || s == HubAcc || s == Done)
  }

  ghost predicate WireOf(f: Found, sent: seq<Act>, s: State) {
    Wire(sent, ClaimsOf(f, s))
  }

  ghost predicate Good(f: Found, sent: seq<Act>, s: State) {
    Flags(f, s) && WireOf(f, sent, s)
  }

  ghost predicate Inv(d: Dock) {
    d.state != Idle && d.tries == 0 && Good(d.found, d.sent, Reached(d))
  }

  // ------------------------------------------------------------ every move

  lemma GoodStates(f: Found, sent: seq<Act>, s: State)
    requires Good(f, sent, s)
    ensures s != Idle && s != Failed
  {
    hide Asked, WireOf;
  }

  /** Failing keeps everything, at the state where it happened. */
  lemma FailKeeps(d: Dock, p: Poll)
    requires d.state != Failed && Good(d.found, d.sent, d.state)
    ensures Inv(Fail(d, p))
  {
    hide Good;
  }

  lemma GoKeeps(d: Dock, next: State, p: Poll)
    requires Good(d.found, d.sent, next)
    ensures Inv(Go(d, next, p))
  {
    GoodStates(d.found, d.sent, next);
    hide Good;
  }

  lemma SendKeeps(d: Dock, msg: seq<Byte>, next: State, p: Poll)
    requires d.state != Failed && Good(d.found, d.sent, d.state) && Good(d.found, d.sent, next)
    requires IsNd(Vdm(msg)) ==> d.found.ninDock && d.found.ninMode
    ensures Inv(SendVdm(d, msg, next, p))
  {
    hide Flags, WireOf, IsNd;
    if p.wrOk {
      MessageKeepsWire(d.found, d.sent, msg, next);
      GoodStates(d.found, d.sent, next);
    } else {
      FailKeeps(d, p);
    }
  }

  lemma MessageKeepsWire(f: Found, sent: seq<Act>, msg: seq<Byte>, next: State)
    requires WireOf(f, sent, next)
    requires IsNd(Vdm(msg)) ==> f.ninDock && f.ninMode
    ensures WireOf(f, sent + [Vdm(msg)] + [Cmd(CMD_SEND_VDM)], next)
  {
    hide Wire, Fits, IsNd, RequestWord, ConfigOf, Rank;
    var c := ClaimsOf(f, next);
    PlainCommandFits(CMD_SEND_VDM, c);
    MessageFits(msg, c);
    WireAppend(sent, Vdm(msg), c);
    WireAppend(sent + [Vdm(msg)], Cmd(CMD_SEND_VDM), c);
  }

  lemma PlainCommandFits(code: nat, c: Claims)
    requires code == CMD_DP_CFG ==> c.entered
    ensures Fits(Cmd(code), c)
  {
  }

  lemma MessageFits(msg: seq<Byte>, c: Claims)
    requires IsNd(Vdm(msg)) ==> c.nin
    ensures Fits(Vdm(msg), c)
  {
  }

  /** Any command but the two that enter and leave DisplayPort. */
  lemma CommandKeeps(d: Dock, code: nat, next: State, p: Poll)
    requires Good(d.found, d.sent, next)
    requires code != CMD_DP_ENTER && code != CMD_DP_EXIT && (code == CMD_DP_CFG ==> d.found.dpOn)
    ensures Inv(CmdGo(d, code, next, p))
  {
    hide Flags, Wire, Fits, RequestWord, ConfigOf, Rank, Without;
    var f := d.found;
    PlainCommandFits(code, ClaimsOf(f, next));
    WireAppend(d.sent, Cmd(code), ClaimsOf(f, next));
    GoodStates(f, d.sent, next);
  }

  lemma EnterKeeps(d: Dock, p: Poll)
    requires !d.found.dpOn && Flags(d.found.(dpOn := true), DpEnterSent) && WireOf(d.found, d.sent, DpEnterSent)
    ensures Inv(CmdGo(d, CMD_DP_ENTER, DpEnterSent, p))
  {
    hide Flags, WireOf, Wire, Without;
    EnteringKeepsWire(d.found, d.sent);
  }

  lemma EnteringKeepsWire(f: Found, sent: seq<Act>)
    requires !f.dpOn && WireOf(f, sent, DpEnterSent)
    ensures WireOf(f.(dpOn := true), sent + [Cmd(CMD_DP_ENTER)], DpEnterSent)
  {
    hide Wire, Rdo;
    WireEnters(sent, ClaimsOf(f, DpEnterSent));
  }

  /** What every command wait shares: taking the completion bit is invisible to the invariant. */
  lemma CmdDoneKeeps(d: Dock, p: Poll)
    requires Inv(d) && d.state != Failed
    ensures var e := CmdDone(d, p).1;
            Inv(e) && Inv(Fail(e, p)) && e == d.(alerts := e.alerts)
  {
    hide Good, Without, Has, TimedOut, Busy, LastCmdBad;
  }

  // --------------------------------------------------------- every handler

  lemma AskKeeps(d: Dock, p: Poll)
    requires Good(d.found, d.sent, WaitPlug) && d.state == WaitPlug
    ensures Inv(AskForPower(d, p))
  {
    hide Good, DockOffer, Choose, OpMa, Picks, Admissible, SendRdo, Fail;
    var pick := Choose(d.found.pdos);
    ChoosePicks(d.found.pdos);
    var f := d.found.(pick := pick, dockPower := d.found.dockPower || DockOffer(d.found.pdos));
    PickKeeps(d.found, d.sent, pick, f.dockPower);
    if pick == 0 {
      FailKeeps(d.(found := f), p);
    } else {
      SendRdoKeeps(d.(found := f, alerts := 0), p);
    }
  }

  lemma PickKeeps(f: Found, sent: seq<Act>, pick: nat, dock: bool)
    requires Good(f, sent, WaitPlug)
    ensures Good(f.(pick := pick, dockPower := dock), sent, WaitPlug)
  {
    hide Wire, Asked, Rdo;
    WireAllows(sent, ClaimsOf(f, WaitPlug), ClaimsOf(f.(pick := pick, dockPower := dock), WaitPlug));
  }

  lemma SendRdoKeeps(d: Dock, p: Poll)
    requires Good(d.found, d.sent, WaitPlug) && 1 <= d.found.pick <= |d.found.pdos|
    requires Picks(d.found.pdos, d.found.pick) && Admissible(d.found.pdos[d.found.pick - 1])
    ensures Inv(SendRdo(d, p))
  {
    hide Good, OpMa, Picks, Rdo;
    RequestKeeps(d.found, d.sent);
    GoodStates(d.found.(reqMa := OpMa(d.found.pdos[d.found.pick - 1].mv, d.found.pdos[d.found.pick - 1].ma)),
               SendRdo(d, p).sent, RdoSent);
  }

  lemma RequestKeeps(f: Found, sent: seq<Act>)
    requires Good(f, sent, WaitPlug) && 1 <= f.pick <= |f.pdos|
    requires Picks(f.pdos, f.pick) && Admissible(f.pdos[f.pick - 1])
    ensures var prof := f.pdos[f.pick - 1];
            var op := OpMa(prof.mv, prof.ma);
            Good(f.(reqMa := op), sent + [SetRdo(Rdo(f.pick, op, prof.ma))] + [Cmd(CMD_SEND_RDO)], RdoSent)
  {
    hide Wire, OpMa, Picks, Rdo, ConfigOf;
    var prof := f.pdos[f.pick - 1];
    var g := f.(reqMa := OpMa(prof.mv, prof.ma));
    var word := Rdo(g.pick, g.reqMa, prof.ma);
    var c := ClaimsOf(g, RdoSent);
    WireAllows(sent, ClaimsOf(f, WaitPlug), c);
    WireAppend(sent, SetRdo(word), c);
    WireAppend(sent + [SetRdo(word)], Cmd(CMD_SEND_RDO), c);
  }

  lemma WaitPlugKeeps(d: Dock, p: Poll)
    requires Inv(d) && d.state == WaitPlug
    ensures Inv(OnWaitPlug(d, p))
  {
    hide Good, Has, Offered, AskForPower, Fail, Elapsed;
    var d1 := if d.plugSeen then d else d.(plugSeen := true, since := p.now);
    var d2 := d1.(found := d1.found.(pdos := Offered(p)));
    OfferKeeps(d.found, d.sent, Offered(p));
    AskKeeps(d2, p);
    FailKeeps(d2, p);
  }

  lemma OfferKeeps(f: Found, sent: seq<Act>, pdos: seq<Profile>)
    requires Good(f, sent, WaitPlug) && |pdos| <= MAX_PROFILES
    ensures Good(f.(pdos := pdos), sent, WaitPlug)
  {
    hide Wire, Asked, Rdo;
    WireAllows(sent, ClaimsOf(f, WaitPlug), ClaimsOf(f.(pdos := pdos), WaitPlug));
  }

  lemma RdoSentKeeps(d: Dock, p: Poll)
    requires Inv(d) && d.state == RdoSent
    ensures Inv(OnRdoSent(d, p))
  {
    hide Good, Has, Without, Decode, Word, TimedOut, CmdGo, Fail;
    var got := if p.contractOk && p.contract[0] == 4 then Decode(Word(p.contract, 1)) else d.found.got;
    ContractKeeps(d.found, d.sent, got);
    CommandKeeps(d.(alerts := Without(d.alerts, AL_CONTRACT), found := d.found.(got := got)), CMD_PS_RDY, PsRdySent, p);
    FailKeeps(d, p);
  }

  lemma ContractKeeps(f: Found, sent: seq<Act>, got: Profile)
    requires Good(f, sent, RdoSent)
    ensures Good(f.(got := got), sent, PsRdySent)
  {
    hide Wire, Picks, OpMa, Rdo;
  }

  lemma DiscoverKeeps(d: Dock, p: Poll)
    requires d.state == PsRdySent || d.state == DrSwapSent
    requires Good(d.found, d.sent, d.state) && d.found.role == Dfp
    ensures Inv(DiscoverIdentity(d, p))
  {
    hide Wire, Asked, RequestWord, SendVdm;
    SendKeeps(d, Structured(0x01, 0x80, 0xFF00), DiscIdSent, p);
  }

  lemma RoleKeeps(d: Dock, role: Role)
    requires d.state == PsRdySent || d.state == DrSwapSent
    requires Good(d.found, d.sent, d.state)
    ensures Good(d.found.(role := role), d.sent, d.state)
    ensures d.state == PsRdySent ==> Good(d.found.(role := role), d.sent, DrSwapSent)
  {
    hide Wire, Picks, OpMa, Rdo;
  }

  lemma PsRdySentKeeps(d: Dock, p: Poll)
    requires Inv(d) && d.state == PsRdySent
    ensures Inv(OnPsRdySent(d, p))
  {
    hide Good, CmdDone, RoleOf, DiscoverIdentity, CmdGo, Fail;
    CmdDoneKeeps(d, p);
    var d1 := CmdDone(d, p).1;
    var d2 := d1.(found := d1.found.(role := RoleOf(d1.s1)));
    RoleKeeps(d1, RoleOf(d1.s1));
    FailKeeps(d2, p);
    CommandKeeps(d2, CMD_DR_SWAP, DrSwapSent, p);
    if d2.found.role == Dfp {
      DiscoverKeeps(d2, p);
    }
  }

  lemma DrSwapSentKeeps(d: Dock, p: Poll)
    requires Inv(d) && d.state == DrSwapSent
    ensures Inv(OnDrSwapSent(d, p))
  {
    hide Good, CmdDone, RoleOf, DiscoverIdentity, Fail;
    CmdDoneKeeps(d, p);
    var d1 := CmdDone(d, p).1;
    var d2 := d1.(found := d1.found.(role := RoleOf(d1.s1)));
    RoleKeeps(d1, RoleOf(d1.s1));
    FailKeeps(d2, p);
    if d2.found.role == Dfp {
      DiscoverKeeps(d2, p);
    }
  }

  /** Steps that settle nothing new. */
  predicate Onward(f: Found, s: State, t: State) {
    match s
    case SvidAcc => t == ModeSent
    case DpCfgSent => t == DpHpdWait
    case DpHpdWait => t == if f.ninDock then QuerySent else Done
    case QueryAcc => t == LedSent
    case LedAcc => t == HubSent
    case HubAcc => t == HubSent || t == Done
    case _ => AwaitsVdm(s) && t == Accepting(s)
  }

  lemma OnwardKeeps(f: Found, sent: seq<Act>, s: State, t: State)
    requires Good(f, sent, s) && Onward(f, s, t)
    ensures Good(f, sent, t)
  {
    OnwardFlags(f, s, t);
    OnwardClaims(f, s, t);
    hide Flags, Wire, Onward, ClaimsOf;
    WireAllows(sent, ClaimsOf(f, s), ClaimsOf(f, t));
  }

  lemma OnwardFlags(f: Found, s: State, t: State)
    requires Flags(f, s) && Onward(f, s, t)
    ensures Flags(f, t)
  {
    hide Asked;
    match s
    case SvidAcc =>
    case DpCfgSent =>
    case DpHpdWait =>
    case QueryAcc =>
    case LedAcc =>
    case HubAcc =>
    case _ => AcceptedFlags(f, s);
  }

  lemma AcceptedFlags(f: Found, s: State)
    requires Flags(f, s) && AwaitsVdm(s)
    ensures Flags(f, Accepting(s))
  {
    hide Asked;
  }

  lemma OnwardClaims(f: Found, s: State, t: State)
    requires Onward(f, s, t)
    ensures Extends(ClaimsOf(f, s), ClaimsOf(f, t))
  {
    hide RequestWord, ConfigOf;
  }

  /** The dock's own messages are sent in its own mode. */
  lemma SpeaksToTheDock(f: Found, sent: seq<Act>, s: State)
    requires Good(f, sent, s)
    requires s == QueryAcc || s == LedAcc || s == HubAcc || (s == DpHpdWait && f.ninDock)
    ensures f.ninDock && f.ninMode
  {
    hide WireOf, Asked;
  }

  /** What the light and the hub answered. */
  lemma NotesKeep(f: Found, sent: seq<Act>, s: State, lit: bool, up: bool)
    requires Good(f, sent, s) && (s == LedAcc || (s == HubAcc && lit == f.ledLit))
    ensures Good(f.(ledLit := lit, hubUp := up), sent, s)
  {
    hide Wire, Picks, OpMa, Rdo;
  }

  lemma VdmSentKeeps(d: Dock, p: Poll)
    requires Inv(d) && AwaitsVdm(d.state)
    ensures Inv(OnVdmSent(d, p))
  {
    hide Good, Has, Without, TimedOut, CmdGo, Fail;
    OnwardKeeps(d.found, d.sent, d.state, Accepting(d.state));
    CommandKeeps(d.(alerts := Without(d.alerts, AL_VDM_RECEIVED)), CMD_ACCEPT_VDM, Accepting(d.state), p);
    FailKeeps(d, p);
  }

  /** Identifying the other end, before anything was sent to it by name. */
  lemma IdentityKeeps(d: Dock, dock: bool, charger: bool, p: Poll)
    requires Inv(d) && d.state == DiscIdAcc && !(dock && charger)
    ensures var e := d.(found := d.found.(ninDock := dock, ninCharger := charger));
            && (dock ==> Inv(SendVdm(e, Structured(0x04, 0x81, VID_NINTENDO), NinSent, p)))
            && (charger ==> Inv(Go(e, Done, p)))
            && (!dock && !charger ==> Inv(SendVdm(e, Structured(0x02, 0x80, 0xFF00), SvidSent, p)))
  {
    hide Good, SendVdm, Go;
    var e := d.(found := d.found.(ninDock := dock, ninCharger := charger));
    NamingKeeps(d.found, d.sent, dock, charger);
    if dock {
      SendKeeps(e, Structured(0x04, 0x81, VID_NINTENDO), NinSent, p);
    } else if charger {
      GoKeeps(e, Done, p);
    } else {
      SendKeeps(e, Structured(0x02, 0x80, 0xFF00), SvidSent, p);
    }
  }

  lemma NamingKeeps(f: Found, sent: seq<Act>, dock: bool, charger: bool)
    requires Good(f, sent, DiscIdAcc) && !(dock && charger)
    ensures var g := f.(ninDock := dock, ninCharger := charger);
            && Good(g, sent, DiscIdAcc)
            && Good(g, sent, if dock then NinSent else if charger then Done else SvidSent)
  {
    hide Wire, Picks, OpMa, Rdo;
    var g := f.(ninDock := dock, ninCharger := charger);
    WireAllows(sent, ClaimsOf(f, DiscIdAcc), ClaimsOf(g, DiscIdAcc));
    WireAllows(sent, ClaimsOf(f, DiscIdAcc), ClaimsOf(g, if dock then NinSent else if charger then Done else SvidSent));
  }

  lemma DiscIdAccKeeps(d: Dock, p: Poll)
    requires Inv(d) && d.state == DiscIdAcc
    ensures Inv(OnDiscIdAcc(d, p))
  {
    hide Good, CmdDone, SendVdm, Go, Fail;
    CmdDoneKeeps(d, p);
    var vid, pid, kind := p.vdm[5] + 0x100 * p.vdm[6] as int, p.vdm[15] + 0x100 * p.vdm[16] as int, p.vdm[8] / 8 % 8;
    IdentityKeeps(CmdDone(d, p).1, vid == VID_NINTENDO && pid == PID_DOCK && kind == 5,
                  vid == VID_NINTENDO && pid == PID_CHARGER, p);
  }

  /** DisplayPort is entered from the dock's own mode, or from a generic adapter's. */
  lemma EnteringKeeps(f: Found, sent: seq<Act>, s: State)
    requires Good(f, sent, s) && (s == NinAcc || s == ModeAcc)
    ensures var g := f.(ninMode := s == NinAcc);
            !g.dpOn && Flags(g.(dpOn := true), DpEnterSent) && WireOf(g, sent, DpEnterSent)
  {
    hide Wire, Picks, OpMa, Rdo;
    WireAllows(sent, ClaimsOf(f, s), ClaimsOf(f.(ninMode := s == NinAcc), DpEnterSent));
  }

  lemma ModeEntered(d: Dock, p: Poll)
    requires Inv(d) && d.state == NinAcc
    ensures Inv(CmdGo(d.(found := d.found.(ninMode := true)), CMD_DP_ENTER, DpEnterSent, p))
  {
    hide Good, CmdGo;
    EnteringKeeps(d.found, d.sent, NinAcc);
    EnterKeeps(d.(found := d.found.(ninMode := true)), p);
  }

  lemma NinAccKeeps(d: Dock, p: Poll)
    requires Inv(d) && d.state == NinAcc
    ensures Inv(OnNinAcc(d, p))
  {
    hide Good, CmdDone, CmdGo, Fail;
    CmdDoneKeeps(d, p);
    ModeEntered(CmdDone(d, p).1, p);
  }

  lemma SvidAccKeeps(d: Dock, p: Poll)
    requires Inv(d) && d.state == SvidAcc
    ensures Inv(OnSvidAcc(d, p))
  {
    hide Good, CmdDone, SendVdm, Fail;
    CmdDoneKeeps(d, p);
    OnwardKeeps(d.found, d.sent, SvidAcc, ModeSent);
    SendKeeps(CmdDone(d, p).1, Structured(0x03, 0x80, 0xFF01), ModeSent, p);
  }

  lemma ModeAccKeeps(d: Dock, p: Poll)
    requires Inv(d) && d.state == ModeAcc
    ensures Inv(OnModeAcc(d, p))
  {
    hide Good, CmdDone, CmdGo, Bit, Fail;
    CmdDoneKeeps(d, p);
    OtherEndEnters(CmdDone(d, p).1, p);
  }

  lemma OtherEndEnters(d: Dock, p: Poll)
    requires Inv(d) && d.state == ModeAcc
    ensures Inv(CmdGo(d, CMD_DP_ENTER, DpEnterSent, p))
  {
    hide WireOf, Asked, CmdGo;
    EnteringKeeps(d.found, d.sent, ModeAcc);
    assert d.found == d.found.(ninMode := false);
    EnterKeeps(d, p);
  }

  lemma ConfigureKeeps(d: Dock, p: Poll)
    requires Inv(d) && d.state == DpEnterSent
    ensures Inv(DpConfigure(d, p))
  {
    hide Good, CmdGo, Bit, Pins, Fail;
    var pin := PinOf(Pins(d.found.ninDock, p.vdm));
    var f := d.found.(lanes := LanesOf(pin));
    PinsAreTwo(Pins(d.found.ninDock, p.vdm));
    LanesKeep(d.found, d.sent, LanesOf(pin));
    if p.vdm[0] != 4 || pin == 0 {
      FailKeeps(d, p);
      FailKeeps(d.(found := f), p);
    } else {
      var a := DpConfig(if f.ninDock then [6, 0, pin, 0] else [6, pin, 0, 0]);
      ConfigKeeps(f, d.sent, a);
      CommandKeeps(d.(found := f, sent := d.sent + [a]), CMD_DP_CFG, DpCfgSent, p);
    }
  }

  lemma LanesKeep(f: Found, sent: seq<Act>, lanes: nat)
    requires Good(f, sent, DpEnterSent) && (lanes == 2 || lanes == 4)
    ensures Good(f.(lanes := lanes), sent, DpEnterSent) && Good(f.(lanes := lanes), sent, DpCfgSent)
    ensures f.dpOn
  {
    hide Wire, Picks, OpMa, Rdo;
    var g := f.(lanes := lanes);
    WireAllows(sent, ClaimsOf(f, DpEnterSent), ClaimsOf(g, DpEnterSent));
    WireAllows(sent, ClaimsOf(f, DpEnterSent), ClaimsOf(g, DpCfgSent));
  }

  lemma ConfigKeeps(f: Found, sent: seq<Act>, a: Act)
    requires Good(f, sent, DpCfgSent) && a == DpConfig(ConfigOf(f))
    ensures Good(f, sent + [a], DpCfgSent)
  {
    hide Wire, Asked, RequestWord, ConfigOf;
    WireAppend(sent, a, ClaimsOf(f, DpCfgSent));
  }

  lemma PinsAreTwo(pins: Byte)
    ensures PinOf(pins) in {0, 4, 8}
  {
  }

  lemma DpEnterSentKeeps(d: Dock, p: Poll)
    requires Inv(d) && d.state == DpEnterSent
    ensures Inv(OnDpEnterSent(d, p))
  {
    hide Good, CmdDone, DpConfigure, Fail;
    CmdDoneKeeps(d, p);
    ConfigureKeeps(CmdDone(d, p).1, p);
  }

  lemma DpCfgSentKeeps(d: Dock, p: Poll)
    requires Inv(d) && d.state == DpCfgSent
    ensures Inv(OnDpCfgSent(d, p))
  {
    hide Good, CmdDone, Go, Fail;
    CmdDoneKeeps(d, p);
    OnwardKeeps(d.found, d.sent, DpCfgSent, DpHpdWait);
    GoKeeps(CmdDone(d, p).1, DpHpdWait, p);
  }

  lemma DpHpdWaitKeeps(d: Dock, p: Poll)
    requires Inv(d) && d.state == DpHpdWait
    ensures Inv(OnDpHpdWait(d, p))
  {
    hide Good, Has, SendVdm, Go, Elapsed;
    if d.found.ninDock {
      SpeaksToTheDock(d.found, d.sent, DpHpdWait);
      OnwardKeeps(d.found, d.sent, DpHpdWait, QuerySent);
      SendKeeps(d, NdMessage(false, ND_STATE, []), QuerySent, p);
    } else {
      OnwardKeeps(d.found, d.sent, DpHpdWait, Done);
      GoKeeps(d, Done, p);
    }
  }

  lemma QueryAccKeeps(d: Dock, p: Poll)
    requires Inv(d) && d.state == QueryAcc
    ensures Inv(OnQueryAcc(d, p))
  {
    hide Good, CmdDone, SendVdm, Fail;
    CmdDoneKeeps(d, p);
    SpeaksToTheDock(d.found, d.sent, QueryAcc);
    OnwardKeeps(d.found, d.sent, QueryAcc, LedSent);
    SendKeeps(CmdDone(d, p).1, NdMessage(true, ND_LED, LED_ON), LedSent, p);
  }

  lemma LedAccKeeps(d: Dock, p: Poll)
    requires Inv(d) && d.state == LedAcc
    ensures Inv(OnLedAcc(d, p))
  {
    hide Good, CmdDone, SendVdm, Fail, Elapsed;
    CmdDoneKeeps(d, p);
    SpeaksToTheDock(d.found, d.sent, LedAcc);
    OnwardKeeps(d.found, d.sent, LedAcc, HubSent);
    NotesKeep(d.found, d.sent, LedAcc, true, d.found.hubUp);
    SendKeeps(d, NdMessage(true, ND_HUB, []), HubSent, p);
  }

  lemma HubAccKeeps(d: Dock, p: Poll)
    requires Inv(d) && d.state == HubAcc
    ensures Inv(OnHubAcc(d, p))
  {
    hide Good, CmdDone, SendVdm, Go, Fail, HubReply, HubBusy;
    CmdDoneKeeps(d, p);
    var d1 := CmdDone(d, p).1;
    SpeaksToTheDock(d.found, d.sent, HubAcc);
    OnwardKeeps(d.found, d.sent, HubAcc, HubSent);
    SendKeeps(d1.(tries := d1.tries + 1), NdMessage(true, ND_HUB, []), HubSent, p);
    var f := if HubReply(p.vdm) then d1.found.(hubUp := !HubBusy(p.vdm)) else d1.found;
    NotesKeep(d.found, d.sent, HubAcc, d.found.ledLit, f.hubUp);
    OnwardKeeps(f, d.sent, HubAcc, Done);
    GoKeeps(d1.(found := f), Done, p);
  }

  // ------------------------------------------------------------ every run

  lemma StartIsGood(p: Poll)
    ensures Inv(Start(p))
  {
    assert multiset(Start(p).sent) == multiset{};
  }

  lemma HandleKeeps(d: Dock, p: Poll)
    requires Inv(d) && d.state != Failed
    ensures Inv(Handle(d, p))
  {
    hide Good, OnVdmSent, OnWaitPlug, OnRdoSent, OnPsRdySent, OnDrSwapSent, OnDiscIdAcc, OnNinAcc, OnSvidAcc,
      OnModeAcc, OnDpEnterSent, OnDpCfgSent, OnDpHpdWait, OnQueryAcc, OnLedAcc, OnHubAcc;
    if AwaitsVdm(d.state) {
      VdmSentKeeps(d, p);
    } else {
      match d.state
      case WaitPlug => WaitPlugKeeps(d, p);
      case RdoSent => RdoSentKeeps(d, p);
      case PsRdySent => PsRdySentKeeps(d, p);
      case DrSwapSent => DrSwapSentKeeps(d, p);
      case DiscIdAcc => DiscIdAccKeeps(d, p);
      case NinAcc => NinAccKeeps(d, p);
      case SvidAcc => SvidAccKeeps(d, p);
      case ModeAcc => ModeAccKeeps(d, p);
      case DpEnterSent => DpEnterSentKeeps(d, p);
      case DpCfgSent => DpCfgSentKeeps(d, p);
      case DpHpdWait => DpHpdWaitKeeps(d, p);
      case QueryAcc => QueryAccKeeps(d, p);
      case LedAcc => LedAccKeeps(d, p);
      case HubAcc => HubAccKeeps(d, p);
      case Done =>
    }
  }

  lemma NextKeeps(d: Dock, p: Poll)
    requires Inv(d)
    ensures Inv(Next(d, p))
  {
    hide Good, Handle, Has, With;
    if d.state != Failed {
      HandleKeeps(Sample(d, p), p);
    }
  }

  /** Every state of every run from `dock_start`. */
  lemma {:induction false} RunKeeps(d: Dock, ps: seq<Poll>)
    requires Inv(d)
    ensures Inv(Run(d, ps))
    decreases |ps|
  {
    hide Inv, Next;
    if ps != [] {
      NextKeeps(d, ps[0]);
      RunKeeps(Next(d, ps[0]), ps[1..]);
    }
  }

  // ------------------------------------------------------------ the theorems

  /** From `dock_start`, whatever the controller answers and however the run ends: a request is sent
      only for a profile that was offered and admissible; from identity discovery on this side is the
      data host; from the wait for HPD on, two or four lanes are set and DisplayPort was asked for; a
      run that is done is in DisplayPort unless the other end is a charger. */
  lemma StatesOfEveryRun(p: Poll, ps: seq<Poll>)
    ensures var d := Run(Start(p), ps);
            var s := Reached(d);
            && d.state != Idle && s != Idle && s != Failed
            && (Rank(s) >= Rank(RdoSent) ==> Asked(d.found))
            && (Rank(s) >= Rank(DiscIdSent) ==> d.found.role == Dfp)
            && (Rank(DpHpdWait) <= Rank(s) <= Rank(HubAcc) ==> d.found.dpOn && d.found.lanes in {2, 4})
            && (Rank(QuerySent) <= Rank(s) <= Rank(HubAcc) ==> d.found.ninDock && d.found.ninMode)
            && (s == Done ==> if d.found.ninCharger then !d.found.dpOn else d.found.dpOn && d.found.lanes in {2, 4})
  {
    hide Run, WireOf, Asked;
    StartIsGood(p);
    RunKeeps(Start(p), ps);
  }

  /** What went over the wire by then: DisplayPort entered once exactly when the flag says so, and
      never left; every power request names the pick; messages only a dock understands go to a dock
      in its own mode; and the lanes are configured only in DisplayPort mode, as settled. */
  lemma WireOfEveryRun(p: Poll, ps: seq<Poll>)
    ensures var d := Run(Start(p), ps);
            && (d.found.dpOn <==> Cmd(CMD_DP_ENTER) in d.sent)
            && Times(d.sent, CMD_DP_ENTER) <= 1 && Cmd(CMD_DP_EXIT) !in d.sent
            && (forall a :: a in d.sent && IsNd(a) ==> d.found.ninDock && d.found.ninMode)
            && (forall a :: a in d.sent && a.DpConfig? ==> d.found.dpOn && a.cfg == ConfigOf(d.found))
            && (forall a :: a in d.sent && a.SetRdo? ==> Asked(d.found) && a.word == RequestWord(d.found))
  {
    hide Run, Asked, RequestWord, IsNd, ConfigOf;
    StartIsGood(p);
    RunKeeps(Start(p), ps);
    var d := Run(Start(p), ps);
    InCounts(d.sent, CMD_DP_ENTER);
    InCounts(d.sent, CMD_DP_EXIT);
  }

  lemma InCounts(sent: seq<Act>, code: nat)
    ensures Cmd(code) in sent <==> Times(sent, code) > 0
  {
    assert Cmd(code) in sent <==> Cmd(code) in multiset(sent);
  }

  lemma TimesAppend(a: seq<Act>, b: seq<Act>, code: nat)
    ensures Times(a + b, code) == Times(a, code) + Times(b, code)
  {
    assert multiset(a + b) == multiset(a) + multiset(b);
  }

  /** `dock_stop` leaves DisplayPort exactly when the flag is set, puts the light out exactly when it
      was lit, and adds nothing the second time. */
  lemma StopMatches(d: Dock, replied: bool)
    requires d.state != Idle
    ensures var e := Stop(d, replied);
            && e.state == Idle && d.sent <= e.sent
            && (LIGHT_OFF in e.sent[|d.sent|..] <==> d.found.ledLit)
            && Times(e.sent, CMD_DP_ENTER) == Times(d.sent, CMD_DP_ENTER)
            && Times(e.sent, CMD_DP_EXIT) == Times(d.sent, CMD_DP_EXIT) + (if d.found.dpOn then 1 else 0)
            && (forall again :: Stop(e, again) == e)
  {
    hide Times, PutOut, Leave;
    var light, exit := PutOut(d, replied), Leave(d);
    assert Stop(d, replied).sent[|d.sent|..] == light + exit;
    LightAndExit(d, replied);
    TimesAppend(d.sent + light, exit, CMD_DP_ENTER);
    TimesAppend(d.sent + light, exit, CMD_DP_EXIT);
    TimesAppend(d.sent, light, CMD_DP_ENTER);
    TimesAppend(d.sent, light, CMD_DP_EXIT);
  }

  lemma LightAndExit(d: Dock, replied: bool)
    ensures Times(PutOut(d, replied), CMD_DP_ENTER) == 0 && Times(PutOut(d, replied), CMD_DP_EXIT) == 0
    ensures Times(Leave(d), CMD_DP_ENTER) == 0 && Times(Leave(d), CMD_DP_EXIT) == (if d.found.dpOn then 1 else 0)
    ensures LIGHT_OFF in PutOut(d, replied) <==> d.found.ledLit
    ensures LIGHT_OFF !in Leave(d)
  {
    hide NdMessage;
    if d.found.ledLit {
      assert PutOut(d, replied)[0] == LIGHT_OFF;
    }
  }

  /** Every run that is stopped has left DisplayPort as often as it entered it. */
  lemma RunThenStopBalances(p: Poll, ps: seq<Poll>, replied: bool)
    ensures var e := Stop(Run(Start(p), ps), replied);
            Times(e.sent, CMD_DP_ENTER) == Times(e.sent, CMD_DP_EXIT)
  {
    hide Run, Stop, Asked, RequestWord, ConfigOf, Fits;
    StartIsGood(p);
    RunKeeps(Start(p), ps);
    StopMatches(Run(Start(p), ps), replied);
  }

  /** The guarantee is per run. A fresh start forgets the flag: over a run left without a stop and
      the next one stopped, the wire is balanced exactly when the first had not entered DisplayPort. */
  lemma RestartBalancesIff(p: Poll, ps: seq<Poll>, q: Poll, qs: seq<Poll>, replied: bool)
    ensures var first, second := Run(Start(p), ps), Stop(Run(Start(q), qs), replied);
            var wire := first.sent + second.sent;
            Times(wire, CMD_DP_ENTER) == Times(wire, CMD_DP_EXIT) <==> !first.found.dpOn
  {
    hide Run, Stop, Asked, RequestWord, ConfigOf, Fits, Times;
    var first, second := Run(Start(p), ps), Stop(Run(Start(q), qs), replied);
    StartIsGood(p);
    RunKeeps(Start(p), ps);
    RunThenStopBalances(q, qs, replied);
    TimesAppend(first.sent, second.sent, CMD_DP_ENTER);
    TimesAppend(first.sent, second.sent, CMD_DP_EXIT);
  }
}
