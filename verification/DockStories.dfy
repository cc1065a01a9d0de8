/** The whole handshake with each kind of partner, from the start: how it ends and everything that was sent,
    byte by byte. */
module DockStories {
  import opened Bits
  import opened PowerProfiles
  import opened DockSpec
  import opened DockProgress
  import DockHubLoop
  import opened DockPartners

  // ---------------------------------------------------------- what was sent

  /** A message sent, and its reply accepted. */
  function Talk(msg: seq<Byte>): seq<Act> {
    [Vdm(msg), Cmd(0x1111), Cmd(0x1616)]
  }

  const IDENTITY: seq<Byte> := [0x01, 0x80, 0x00, 0xFF]
  const NIN_MODE: seq<Byte> := [0x04, 0x81, 0x7E, 0x05]
  const SVIDS: seq<Byte> := [0x02, 0x80, 0x00, 0xFF]
  const MODES: seq<Byte> := [0x03, 0x80, 0x01, 0xFF]
  const STATE: seq<Byte> := [0x00, 0x00, 0x7E, 0x05, 0, 1, 0x16, 0x00]
  const LIGHT: seq<Byte> := [0x00, 0x00, 0x7E, 0x05, 1, 1, 0x01, 0x00, 64, 0, 0, 128]
  const HUB: seq<Byte> := [0x00, 0x00, 0x7E, 0x05, 1, 1, 0x20, 0x00]

  // ------------------------------------------------------- what a reply says

  lemma IdentityReply(pt: Partner, asks: nat)
    requires Sound(pt)
    ensures SaysItIs(ReplyTo(pt, IDENTITY, asks), pt.vid, pt.pid, pt.kind)
  {
    var r := ReplyTo(pt, IDENTITY, asks);
    assert r[5] == pt.vid % 0x100 && r[6] == pt.vid / 0x100 && r[15] == pt.pid % 0x100 && r[16] == pt.pid / 0x100;
    assert r[8] == 64 * pt.above + 8 * pt.kind + pt.below;
    KindReads(pt.above, pt.kind, pt.below);
  }

  lemma KindReads(above: nat, kind: nat, below: nat)
    requires above < 4 && kind < 8 && below < 8
    ensures (64 * above + 8 * kind + below) / 8 % 8 == kind
  {
  }

  lemma NinReply(pt: Partner, asks: nat)
    requires Sound(pt)
    ensures var r := ReplyTo(pt, NIN_MODE, asks);
            r[1..5] == [if pt.ninMode then 0x44 else 0x84, 0x81, 0x7E, 0x05]
  {
    assert NIN_MODE[0] != 0x01;
  }

  lemma SvidReply(pt: Partner, asks: nat)
    requires Sound(pt)
    ensures ReplyTo(pt, SVIDS, asks)[1] == if pt.svids != [] then 0x42 else 0x82
  {
    assert SVIDS[0] != 0x01 && SVIDS[0] != 0x04;
    hide ModeWords;
  }

  lemma ModeReply(pt: Partner, asks: nat)
    requires Sound(pt)
    ensures var r := ReplyTo(pt, MODES, asks);
            if 0xFF01 !in pt.svids then r[1] == 0x83
            else if !pt.mode then r[0] == 4
            else r[0] == 8 && r[1] == 0x43 && r[3] == 0x01 && r[4] == 0xFF && r[5] == pt.caps[0]
  {
    assert MODES[0] != 0x01 && MODES[0] != 0x04 && MODES[0] != 0x02;
    if 0xFF01 in pt.svids {
      assert ([0x43, 0x80, 0x01, 0xFF] + pt.caps)[4] == pt.caps[0];
    }
  }

  lemma HubSays(pt: Partner, asks: nat)
    requires Sound(pt)
    ensures var r := ReplyTo(pt, HUB, asks);
            r[5] == (if asks <= pt.busy then 1 else 0) && r[6] == 2 && r[7] == 0x21
  {
    assert |HUB| == 8 && HUB[..4] == [0x00, 0x00, 0x7E, 0x05] && HUB[6] == 0x20;
  }

  lemma CapsShown(pt: Partner, sent: seq<Act>)
    requires Sound(pt)
    ensures var r := Shown(pt, sent + [Cmd(0x3131)]);
            r[0] == 4 && r[1] == pt.caps[0] && r[2] == pt.caps[1] && r[3] == pt.caps[2]
  {
  }

  lemma ReplyShown(pt: Partner, sent: seq<Act>, msg: seq<Byte>)
    requires Sound(pt)
    ensures Shown(pt, sent + Talk(msg)) == ReplyTo(pt, msg, HubAsks(sent + Talk(msg)))
  {
    hide ReplyTo, HubAsks;
  }

  // --------------------------------------------------------------- one turn

  /** Where the handshake stands. */
  predicate Stands(d: Dock, s: State, t: nat, sent: seq<Act>, f: Found) {
    d.state == s && d.since == t && d.tries == 0 && d.sent == sent && d.found == f
  }

  predicate Broken(d: Dock, s: State, t: nat, sent: seq<Act>, f: Found) {
    Stands(d, Failed, t, sent, f) && d.failedState == s
  }

  /** A poll sampled, what it read, and the part of the state that handles it. */
  lemma Polled(pt: Partner, b: Block29, d: Dock, t: nat) returns (d1: Dock, p: Poll)
    requires Sound(pt) && !Over(d)
    ensures p == Answer(pt, b, d, t) && d1 == Sample(d, p) && Prompt(d1, p)
    ensures p.now == p.stamp == t && p.pdos == b && p.contract == Contract(b) && p.vdm == Shown(pt, d.sent)
    ensures d1.s1 == if pt.host || Cmd(0x1818) in d.sent then 0x0280 else 0x0180
    ensures d1 == d.(alerts := d1.alerts, s1 := d1.s1, dp := d1.dp)
    ensures AwaitsVdm(d.state) ==> Turn(pt, b, d, t) == OnVdmSent(d1, p)
    ensures d.state == WaitPlug ==> Turn(pt, b, d, t) == OnWaitPlug(d1, p)
    ensures d.state == RdoSent ==> Turn(pt, b, d, t) == OnRdoSent(d1, p)
    ensures d.state == PsRdySent ==> Turn(pt, b, d, t) == OnPsRdySent(d1, p)
    ensures d.state == DrSwapSent ==> Turn(pt, b, d, t) == OnDrSwapSent(d1, p)
    ensures d.state == DiscIdAcc ==> Turn(pt, b, d, t) == OnDiscIdAcc(d1, p)
    ensures d.state == NinAcc ==> Turn(pt, b, d, t) == OnNinAcc(d1, p)
    ensures d.state == SvidAcc ==> Turn(pt, b, d, t) == OnSvidAcc(d1, p)
    ensures d.state == ModeAcc ==> Turn(pt, b, d, t) == OnModeAcc(d1, p)
    ensures d.state == DpEnterSent ==> Turn(pt, b, d, t) == OnDpEnterSent(d1, p)
    ensures d.state == DpCfgSent ==> Turn(pt, b, d, t) == OnDpCfgSent(d1, p)
    ensures d.state == DpHpdWait ==> Turn(pt, b, d, t) == OnDpHpdWait(d1, p)
    ensures d.state == QueryAcc ==> Turn(pt, b, d, t) == OnQueryAcc(d1, p)
    ensures d.state == LedAcc ==> Turn(pt, b, d, t) == OnLedAcc(d1, p)
    ensures d.state == HubAcc ==> Turn(pt, b, d, t) == OnHubAcc(d1, p)
  {
    hide Turn, Handle, Prompt, OnVdmSent, OnWaitPlug, OnRdoSent, OnPsRdySent, OnDrSwapSent, OnDiscIdAcc, OnNinAcc,
      OnSvidAcc, OnModeAcc, OnDpEnterSent, OnDpCfgSent, OnDpHpdWait, OnQueryAcc, OnLedAcc, OnHubAcc, Shown, Contract;
    p := Answer(pt, b, d, t);
    d1 := Sample(d, p);
    TurnIsHandled(pt, b, d, t);
    DockHubLoop.Dispatch(d1, p);
  }

  /** The reply to what was said last is taken. */
  lemma Accepts(pt: Partner, b: Block29, d: Dock, t: nat, t': nat, s: State, sent: seq<Act>, msg: seq<Byte>, f: Found)
    requires Sound(pt) && AwaitsVdm(s) && Stands(d, s, t, sent + [Vdm(msg), Cmd(0x1111)], f)
    ensures Stands(Turn(pt, b, d, t'), Accepting(s), t', sent + Talk(msg), f)
  {
    hide Turn, Handle, Prompt, OnVdmSent, Answer, Shown, Contract;
    var d1, p := Polled(pt, b, d, t');
    OnReply(d1, p);
  }

  // ------------------------------------------------------------ the beginning

  /** What is found when the power is asked for. */
  function Powered(b: Block29): Found
    requires Choose(Profiles(b)) > 0
  {
    var ps := Profiles(b);
    var got := ps[Choose(ps) - 1];
    NothingFound().(pdos := ps, pick := Choose(ps), dockPower := DockOffer(ps), reqMa := OpMa(got.mv, got.ma))
  }

  function Request(b: Block29): nat
    requires Choose(Profiles(b)) > 0
  {
    var ps := Profiles(b);
    var got := ps[Choose(ps) - 1];
    Rdo(Choose(ps), OpMa(got.mv, got.ma), got.ma)
  }

  lemma PlugIsSeen(d: Dock, p: Poll)
    requires d.state == WaitPlug && !d.plugSeen && Prompt(d, p)
    ensures OnWaitPlug(d, p) == d.(plugSeen := true, since := p.now)
  {
    hide CmdDone, Has, Inserted;
    assert Elapsed(p.now, p.now) == 0;
  }

  lemma PowerIsAsked(d: Dock, p: Poll)
    requires d.state == WaitPlug && d.plugSeen && Prompt(d, p) && 500 <= p.now - d.since < WORD
    requires d.found == NothingFound() && d.sent == [] && d.tries == 0 && Profiles(p.pdos) != []
    ensures var e := OnWaitPlug(d, p);
            if Choose(Profiles(p.pdos)) == 0 then
              e.state == Failed && e.failedState == WaitPlug && e.sent == [] && !e.found.dpOn && e.tries == 0
            else Stands(e, RdoSent, p.stamp, [SetRdo(Request(p.pdos)), Cmd(0x0707)], Powered(p.pdos))
  {
    hide CmdDone, Has, Inserted, Profiles, Choose, OpMa, Rdo, DockOffer;
    assert Elapsed(p.now, d.since) == p.now - d.since;
    if Choose(Profiles(p.pdos)) > 0 {
      var got := Profiles(p.pdos)[Choose(Profiles(p.pdos)) - 1];
      assert Admissible(got);
    }
  }

  lemma FirstTurn(pt: Partner, b: Block29, times: nat -> nat)
    requires Sound(pt)
    ensures var d := Play(pt, b, times, 1);
            Stands(d, WaitPlug, times(1), [], NothingFound()) && d.plugSeen
  {
    hide Turn, Handle, Prompt, OnWaitPlug, Answer, Shown, Contract;
    var d0 := Play(pt, b, times, 0);
    assert Stands(d0, WaitPlug, d0.since, [], NothingFound()) && !d0.plugSeen;
    var d1, p := Polled(pt, b, d0, times(1));
    PlugIsSeen(d1, p);
    assert Play(pt, b, times, 1) == Turn(pt, b, d0, times(1));
  }

  lemma SecondTurn(pt: Partner, b: Block29, times: nat -> nat)
    requires Sound(pt) && Spaced(times) && Profiles(b) != []
    ensures var e := Play(pt, b, times, 2);
            if Choose(Profiles(b)) == 0 then
              e.state == Failed && e.failedState == WaitPlug && e.sent == [] && !e.found.dpOn && e.tries == 0
            else Stands(e, RdoSent, times(2), [SetRdo(Request(b)), Cmd(0x0707)], Powered(b))
  {
    hide Turn, Handle, Prompt, OnWaitPlug, Answer, Shown, Contract, Choose, Profiles, Powered, Request;
    FirstTurn(pt, b, times);
    var d := Play(pt, b, times, 1);
    assert Apart(times, 1);
    var d1, p := Polled(pt, b, d, times(2));
    PowerIsAsked(d1, p);
    assert Play(pt, b, times, 2) == Turn(pt, b, d, times(2));
  }

  // ------------------------------------------------------- from state to state

  /** The contract is for the profile that was chosen. */
  lemma ContractReads(b: Block29)
    requires Choose(Profiles(b)) > 0
    ensures Contract(b)[0] == 4 && Decode(Word(Contract(b), 1)) == Profiles(b)[Choose(Profiles(b)) - 1]
  {
    hide Choose, Decode;
    var pick := Choose(Profiles(b));
    var v := b[4 * pick - 3..4 * pick + 1];
    assert Contract(b) == [4] + v;
    assert v[0] == b[4 * pick - 3] && v[1] == b[4 * pick - 2] && v[2] == b[4 * pick - 1] && v[3] == b[4 * pick];
    assert Word(Contract(b), 1) == Word(b, 1 + 4 * (pick - 1));
  }

  lemma TurnContract(pt: Partner, b: Block29, d: Dock, t: nat, t': nat, sent: seq<Act>, f: Found)
    requires Sound(pt) && Choose(Profiles(b)) > 0 && Stands(d, RdoSent, t, sent, f)
    ensures Stands(Turn(pt, b, d, t'), PsRdySent, t', sent + [Cmd(0x0505)],
                   f.(got := Profiles(b)[Choose(Profiles(b)) - 1]))
  {
    hide Turn, Handle, Prompt, OnRdoSent, Answer, Shown, Contract, Choose, Profiles, Decode;
    var d1, p := Polled(pt, b, d, t');
    ContractReads(b);
    OnContract(d1, p);
  }

  lemma TurnReady(pt: Partner, b: Block29, d: Dock, t: nat, t': nat, sent: seq<Act>, f: Found)
    requires Sound(pt) && Stands(d, PsRdySent, t, sent, f) && Cmd(0x1818) !in sent
    ensures var e := Turn(pt, b, d, t');
            if pt.host then Stands(e, DiscIdSent, t', sent + [Vdm(IDENTITY), Cmd(0x1111)], f.(role := Dfp))
            else Stands(e, DrSwapSent, t', sent + [Cmd(0x1818)], f.(role := Ufp))
  {
    hide Turn, Handle, Prompt, OnPsRdySent, Answer, Shown, Contract;
    StatusMeans();
    hide RoleOf;
    var d1, p := Polled(pt, b, d, t');
    OnSinkReady(d1, p);
  }

  lemma TurnSwapped(pt: Partner, b: Block29, d: Dock, t: nat, t': nat, sent: seq<Act>, f: Found)
    requires Sound(pt) && Stands(d, DrSwapSent, t, sent + [Cmd(0x1818)], f)
    ensures Stands(Turn(pt, b, d, t'), DiscIdSent, t', sent + [Cmd(0x1818)] + [Vdm(IDENTITY), Cmd(0x1111)],
                   f.(role := Dfp))
  {
    hide Turn, Handle, Prompt, OnDrSwapSent, Answer, Shown, Contract;
    StatusMeans();
    hide RoleOf;
    var d1, p := Polled(pt, b, d, t');
    OnSwapped(d1, p);
  }

  predicate IsDock(pt: Partner) {
    pt.vid == 0x057E && pt.pid == 0x2003 && pt.kind == 5
  }

  predicate IsCharger(pt: Partner) {
    pt.vid == 0x057E && pt.pid == 0x2004
  }

  lemma TurnIdentity(pt: Partner, b: Block29, d: Dock, t: nat, t': nat, sent: seq<Act>, f: Found)
    requires Sound(pt) && Stands(d, DiscIdAcc, t, sent + Talk(IDENTITY), f)
    ensures var e, now := Turn(pt, b, d, t'), f.(ninDock := IsDock(pt), ninCharger := IsCharger(pt));
            if IsDock(pt) then Stands(e, NinSent, t', sent + Talk(IDENTITY) + [Vdm(NIN_MODE), Cmd(0x1111)], now)
            else if IsCharger(pt) then Stands(e, Done, t', sent + Talk(IDENTITY), now)
            else Stands(e, SvidSent, t', sent + Talk(IDENTITY) + [Vdm(SVIDS), Cmd(0x1111)], now)
  {
    hide Turn, Handle, Prompt, OnDiscIdAcc, Answer, Shown, Contract, Talk, ReplyTo, SaysItIs;
    var d1, p := Polled(pt, b, d, t');
    ReplyShown(pt, sent, IDENTITY);
    IdentityReply(pt, HubAsks(d.sent));
    OnIdentity(d1, p, pt.vid, pt.pid, pt.kind);
    assert d.sent + [] == d.sent;
  }

  lemma TurnNinMode(pt: Partner, b: Block29, d: Dock, t: nat, t': nat, sent: seq<Act>, f: Found)
    requires Sound(pt) && Stands(d, NinAcc, t, sent + Talk(NIN_MODE), f)
    ensures var e := Turn(pt, b, d, t');
            if pt.ninMode then
              Stands(e, DpEnterSent, t', sent + Talk(NIN_MODE) + [Cmd(0x3131)], f.(ninMode := true, dpOn := true))
            else Broken(e, NinAcc, t', sent + Talk(NIN_MODE), f)
  {
    hide Turn, Handle, Prompt, OnNinAcc, Answer, Shown, Contract, Talk, ReplyTo;
    var d1, p := Polled(pt, b, d, t');
    ReplyShown(pt, sent, NIN_MODE);
    NinReply(pt, HubAsks(d.sent));
    assert [0x44, 0x81, 0x7E, 0x05][0] != [0x84, 0x81, 0x7E, 0x05][0];
    OnNinMode(d1, p);
    assert d.sent + [] == d.sent;
  }

  lemma TurnSvids(pt: Partner, b: Block29, d: Dock, t: nat, t': nat, sent: seq<Act>, f: Found)
    requires Sound(pt) && Stands(d, SvidAcc, t, sent + Talk(SVIDS), f)
    ensures var e := Turn(pt, b, d, t');
            if pt.svids != [] then Stands(e, ModeSent, t', sent + Talk(SVIDS) + [Vdm(MODES), Cmd(0x1111)], f)
            else Broken(e, SvidAcc, t', sent + Talk(SVIDS), f)
  {
    hide Turn, Handle, Prompt, OnSvidAcc, Answer, Shown, Contract, Talk, ReplyTo;
    var d1, p := Polled(pt, b, d, t');
    ReplyShown(pt, sent, SVIDS);
    SvidReply(pt, HubAsks(d.sent));
    OnSvids(d1, p);
    assert d.sent + [] == d.sent;
  }

  /** It does DisplayPort: the mode is listed and answered for, and its word says that it can be the sink and
      that it has DisplayPort. */
  predicate DoesDp(pt: Partner)
    requires Sound(pt)
  {
    0xFF01 in pt.svids && pt.mode && pt.caps[0] % 2 == 1 && pt.caps[0] / 4 % 2 == 1
  }

  lemma TurnMode(pt: Partner, b: Block29, d: Dock, t: nat, t': nat, sent: seq<Act>, f: Found)
    requires Sound(pt) && Stands(d, ModeAcc, t, sent + Talk(MODES), f)
    ensures var e := Turn(pt, b, d, t');
            if DoesDp(pt) then Stands(e, DpEnterSent, t', sent + Talk(MODES) + [Cmd(0x3131)], f.(dpOn := true))
            else Broken(e, ModeAcc, t', sent + Talk(MODES), f)
  {
    hide Turn, Handle, Prompt, OnModeAcc, Answer, Shown, Contract, Talk, ReplyTo;
    var d1, p := Polled(pt, b, d, t');
    ReplyShown(pt, sent, MODES);
    ModeReply(pt, HubAsks(d.sent));
    OnMode(d1, p);
    assert d.sent + [] == d.sent;
  }

  /** The pin assignment taken: from the receptacle's byte when the partner says it has one or is the dock, else
      from the plug's; 8 for D, else 4 for C, else none. */
  function PinFor(pt: Partner): Byte
    requires Sound(pt)
  {
    Taken(if IsDock(pt) || pt.caps[0] / 64 % 2 == 1 then pt.caps[2] else pt.caps[1])
  }

  function Config(pt: Partner): seq<Byte>
    requires Sound(pt)
  {
    if IsDock(pt) then [6, 0, PinFor(pt), 0] else [6, PinFor(pt), 0, 0]
  }

  lemma PinShown(pt: Partner, r: Block29)
    requires Sound(pt) && r[1] == pt.caps[0] && r[2] == pt.caps[1] && r[3] == pt.caps[2]
    ensures var pin := Taken(if IsDock(pt) || r[1] / 64 % 2 == 1 then r[3] else r[2]);
            pin == PinFor(pt) && Config(pt) == if IsDock(pt) then [6, 0, pin, 0] else [6, pin, 0, 0]
  {
    hide Taken;
  }

  lemma TurnEntered(pt: Partner, b: Block29, d: Dock, t: nat, t': nat, sent: seq<Act>, f: Found)
    requires Sound(pt) && Stands(d, DpEnterSent, t, sent + [Cmd(0x3131)], f) && f.ninDock == IsDock(pt)
    ensures var e := Turn(pt, b, d, t');
            if PinFor(pt) == 0 then Broken(e, DpEnterSent, t', sent + [Cmd(0x3131)], f)
            else Stands(e, DpCfgSent, t', sent + [Cmd(0x3131)] + [DpConfig(Config(pt)), Cmd(0x3636)],
                        f.(lanes := if PinFor(pt) == 8 then 2 else 4))
  {
    hide Turn, Handle, Prompt, OnDpEnterSent, Answer, Shown, Contract, Taken, Config, PinFor, IsDock, Went;
    var d1, p := Polled(pt, b, d, t');
    CapsShown(pt, sent);
    OnEntered(d1, p);
    PinShown(pt, p.vdm);
    var e, pin := Turn(pt, b, d, t'), PinFor(pt);
    if pin == 0 {
      WentOut(d1, e, t');
    } else {
      WentOn(d1, e, DpCfgSent, t', [DpConfig(Config(pt)), Cmd(0x3636)], f.(lanes := if pin == 8 then 2 else 4));
    }
  }

  lemma WentOn(d: Dock, e: Dock, s: State, t: nat, more: seq<Act>, f: Found)
    requires Went(d, e, s, t, more, f)
    ensures Stands(e, s, t, d.sent + more, f)
  {
  }

  lemma WentOut(d: Dock, e: Dock, t: nat)
    requires WentWrong(d, e, t)
    ensures Broken(e, d.state, t, d.sent, d.found)
  {
    assert d.sent + [] == d.sent;
  }

  lemma TurnConfigured(pt: Partner, b: Block29, d: Dock, t: nat, t': nat, sent: seq<Act>, f: Found)
    requires Sound(pt) && Stands(d, DpCfgSent, t, sent, f)
    ensures Stands(Turn(pt, b, d, t'), DpHpdWait, t', sent, f)
  {
    hide Turn, Handle, Prompt, OnDpCfgSent, Answer, Shown, Contract;
    var d1, p := Polled(pt, b, d, t');
    OnConfigured(d1, p);
    assert d.sent + [] == d.sent;
  }

  lemma TurnDetected(pt: Partner, b: Block29, d: Dock, t: nat, t': nat, sent: seq<Act>, f: Found)
    requires Sound(pt) && Stands(d, DpHpdWait, t, sent, f)
    ensures var e := Turn(pt, b, d, t');
            if f.ninDock then Stands(e, QuerySent, t', sent + [Vdm(STATE), Cmd(0x1111)], f)
            else Stands(e, Done, t', sent, f)
  {
    hide Turn, Handle, Prompt, OnDpHpdWait, Answer, Shown, Contract;
    var d1, p := Polled(pt, b, d, t');
    OnDetected(d1, p);
    assert d.sent + [] == d.sent;
  }

  lemma TurnState(pt: Partner, b: Block29, d: Dock, t: nat, t': nat, sent: seq<Act>, f: Found)
    requires Sound(pt) && Stands(d, QueryAcc, t, sent, f)
    ensures Stands(Turn(pt, b, d, t'), LedSent, t', sent + [Vdm(LIGHT), Cmd(0x1111)], f)
  {
    hide Turn, Handle, Prompt, OnQueryAcc, Answer, Shown, Contract;
    var d1, p := Polled(pt, b, d, t');
    OnState(d1, p);
  }

  lemma TurnLight(pt: Partner, b: Block29, d: Dock, t: nat, t': nat, sent: seq<Act>, f: Found)
    requires Sound(pt) && Stands(d, LedAcc, t, sent, f)
    ensures var e := Turn(pt, b, d, t');
            && (!f.ledLit ==> Stands(e, LedAcc, t', sent, f.(ledLit := true)))
            && (f.ledLit && 500 <= t' - t < WORD ==> Stands(e, HubSent, t', sent + [Vdm(HUB), Cmd(0x1111)], f))
  {
    hide Turn, Handle, Prompt, OnLedAcc, Answer, Shown, Contract;
    var d1, p := Polled(pt, b, d, t');
    OnLight(d1, p);
    assert d.sent + [] == d.sent;
  }

  lemma TurnHub(pt: Partner, b: Block29, d: Dock, t: nat, t': nat, sent: seq<Act>, f: Found)
    requires Sound(pt) && Stands(d, HubAcc, t, sent + Talk(HUB), f)
    ensures var e := Turn(pt, b, d, t');
            if HubAsks(sent + Talk(HUB)) <= pt.busy then
              Stands(e, HubSent, t', sent + Talk(HUB) + [Vdm(HUB), Cmd(0x1111)], f)
            else Stands(e, Done, t', sent + Talk(HUB), f.(hubUp := true))
  {
    hide Turn, Handle, Prompt, OnHubAcc, Answer, Shown, Contract, Talk, ReplyTo, HubAsks;
    var d1, p := Polled(pt, b, d, t');
    ReplyShown(pt, sent, HUB);
    HubSays(pt, HubAsks(d.sent));
    OnHub(d1, p);
    assert d.sent + [] == d.sent;
  }

  // -------------------------------------------------------------- whole runs

  lemma PlayNext(pt: Partner, b: Block29, times: nat -> nat, n: nat)
    requires Sound(pt)
    ensures Play(pt, b, times, n + 1) == Turn(pt, b, Play(pt, b, times, n), times(n + 1))
  {
    hide Turn;
  }

  /** What is settled is not touched by later polls. */
  lemma {:induction false} Rests(pt: Partner, b: Block29, times: nat -> nat, n: nat, m: nat, s: State, t: nat,
                                 sent: seq<Act>, f: Found)
    requires Sound(pt) && n <= m && Stands(Play(pt, b, times, n), s, t, sent, f) && (s == Done || s == Failed)
    ensures Stands(Play(pt, b, times, m), s, t, sent, f)
    ensures Play(pt, b, times, m).failedState == Play(pt, b, times, n).failedState
    decreases m - n
  {
    hide Turn, Play, Apart;
    if n < m {
      Rests(pt, b, times, n, m - 1, s, t, sent, f);
      PlayNext(pt, b, times, m - 1);
      RestsOnce(pt, b, Play(pt, b, times, m - 1), times(m));
    }
  }

  lemma RestsOnce(pt: Partner, b: Block29, d: Dock, t: nat)
    requires Sound(pt) && d.tries == 0 && (d.state == Done || d.state == Failed)
    ensures Stands(Turn(pt, b, d, t), d.state, d.since, d.sent, d.found)
    ensures Turn(pt, b, d, t).failedState == d.failedState
  {
    hide Handle, Prompt, Answer, Shown, Contract;
    if d.state == Done {
      TurnIsHandled(pt, b, d, t);
      DoneIsLeft(Sample(d, Answer(pt, b, d, t)), Answer(pt, b, d, t));
    }
  }

  lemma DoneIsLeft(d: Dock, p: Poll)
    requires d.state == Done
    ensures Handle(d, p) == d
  {
  }

  /** The request for power, the contract taken, and the data role swapped when the console is not the host. */
  function Begun(pt: Partner, b: Block29): seq<Act>
    requires Choose(Profiles(b)) > 0
  {
    [SetRdo(Request(b)), Cmd(0x0707), Cmd(0x0505)] + if pt.host then [] else [Cmd(0x1818)]
  }

  /** The polls the swap takes. */
  function Swaps(pt: Partner): nat {
    if pt.host then 0 else 1
  }

  function Host(b: Block29): Found
    requires Choose(Profiles(b)) > 0
  {
    Powered(b).(got := Profiles(b)[Choose(Profiles(b)) - 1], role := Dfp)
  }

  lemma Opening(pt: Partner, b: Block29, times: nat -> nat)
    requires Sound(pt) && Spaced(times) && Choose(Profiles(b)) > 0
    ensures var n := 4 + Swaps(pt);
            Stands(Play(pt, b, times, n), DiscIdSent, times(n), Begun(pt, b) + [Vdm(IDENTITY), Cmd(0x1111)], Host(b))
  {
    hide Turn, Play, Choose, Profiles, Powered, Request, Stands, Begun, Host;
    assert Profiles(b) != [];
    SecondTurn(pt, b, times);
    var s2 := [SetRdo(Request(b)), Cmd(0x0707)];
    PlayNext(pt, b, times, 2);
    TurnContract(pt, b, Play(pt, b, times, 2), times(2), times(3), s2, Powered(b));
    var s3, f := s2 + [Cmd(0x0505)], Powered(b).(got := Profiles(b)[Choose(Profiles(b)) - 1]);
    PlayNext(pt, b, times, 3);
    TurnReady(pt, b, Play(pt, b, times, 3), times(3), times(4), s3, f);
    BegunIs(pt, b);
    if !pt.host {
      PlayNext(pt, b, times, 4);
      TurnSwapped(pt, b, Play(pt, b, times, 4), times(4), times(5), s3, f.(role := Ufp));
    }
  }

  lemma BegunIs(pt: Partner, b: Block29)
    requires Choose(Profiles(b)) > 0
    ensures var s3 := [SetRdo(Request(b)), Cmd(0x0707)] + [Cmd(0x0505)];
            Begun(pt, b) == if pt.host then s3 else s3 + [Cmd(0x1818)]
    ensures var f := Powered(b).(got := Profiles(b)[Choose(Profiles(b)) - 1]);
            Host(b) == f.(role := Dfp) == f.(role := Ufp).(role := Dfp)
  {
    hide Choose, Profiles, Request, Powered;
  }

  /** Two polls: a reply taken, in the state after. */
  lemma Taking(pt: Partner, b: Block29, times: nat -> nat, n: nat, s: State, sent: seq<Act>, msg: seq<Byte>, f: Found)
    requires Sound(pt) && AwaitsVdm(s)
    requires Stands(Play(pt, b, times, n), s, times(n), sent + [Vdm(msg), Cmd(0x1111)], f)
    ensures Stands(Play(pt, b, times, n + 1), Accepting(s), times(n + 1), sent + Talk(msg), f)
  {
    hide Turn, Play, Talk;
    PlayNext(pt, b, times, n);
    Accepts(pt, b, Play(pt, b, times, n), times(n), times(n + 1), s, sent, msg, f);
  }

  lemma Naming(pt: Partner, b: Block29, times: nat -> nat)
    requires Sound(pt) && Spaced(times) && Choose(Profiles(b)) > 0
    ensures var n, sent := 6 + Swaps(pt), Begun(pt, b) + Talk(IDENTITY);
            var d, f := Play(pt, b, times, n), Host(b).(ninDock := IsDock(pt), ninCharger := IsCharger(pt));
            if IsDock(pt) then Stands(d, NinSent, times(n), sent + [Vdm(NIN_MODE), Cmd(0x1111)], f)
            else if IsCharger(pt) then Stands(d, Done, times(n), sent, f)
            else Stands(d, SvidSent, times(n), sent + [Vdm(SVIDS), Cmd(0x1111)], f)
  {
    hide Turn, Play, Choose, Profiles, Host, Begun, Talk, Stands;
    Opening(pt, b, times);
    var n := 4 + Swaps(pt);
    Taking(pt, b, times, n, DiscIdSent, Begun(pt, b), IDENTITY, Host(b));
    PlayNext(pt, b, times, n + 1);
    TurnIdentity(pt, b, Play(pt, b, times, n + 1), times(n + 1), times(n + 2), Begun(pt, b), Host(b));
  }

  /** From the mode entered to the lanes configured, or not. */
  lemma Configuring(pt: Partner, b: Block29, times: nat -> nat, n: nat, sent: seq<Act>, f: Found)
    requires Sound(pt) && f.ninDock == IsDock(pt)
    requires Stands(Play(pt, b, times, n), DpEnterSent, times(n), sent + [Cmd(0x3131)], f)
    ensures var d := Play(pt, b, times, n + 1);
            if PinFor(pt) == 0 then Broken(d, DpEnterSent, times(n + 1), sent + [Cmd(0x3131)], f)
            else Stands(Play(pt, b, times, n + 2), DpHpdWait, times(n + 2),
                        sent + [Cmd(0x3131)] + [DpConfig(Config(pt)), Cmd(0x3636)],
                        f.(lanes := if PinFor(pt) == 8 then 2 else 4))
  {
    hide Turn, Play, Config, PinFor, Stands;
    PlayNext(pt, b, times, n);
    TurnEntered(pt, b, Play(pt, b, times, n), times(n), times(n + 1), sent, f);
    if PinFor(pt) != 0 {
      PlayNext(pt, b, times, n + 1);
      TurnConfigured(pt, b, Play(pt, b, times, n + 1), times(n + 1), times(n + 2),
                     sent + [Cmd(0x3131)] + [DpConfig(Config(pt)), Cmd(0x3636)],
                     f.(lanes := if PinFor(pt) == 8 then 2 else 4));
    }
  }

  // ------------------------------------------------------------ the charger

  /** Nintendo's charger is done with once it has said who it is: DisplayPort is not entered and nothing else is
      asked of it. */
  lemma ChargerRun(pt: Partner, b: Block29, times: nat -> nat, n: nat)
    requires Sound(pt) && Spaced(times) && Choose(Profiles(b)) > 0
    requires pt.vid == 0x057E && pt.pid == 0x2004 && n >= 7
    ensures var d := Play(pt, b, times, n);
            && d.state == Done && !d.found.dpOn && d.found.ninCharger && !d.found.ninDock
            && d.sent == [SetRdo(Request(b)), Cmd(0x0707), Cmd(0x0505)] + (if pt.host then [] else [Cmd(0x1818)])
                         + [Vdm([0x01, 0x80, 0x00, 0xFF]), Cmd(0x1111), Cmd(0x1616)]
  {
    hide Play, Choose, Profiles, Request, Host, Begun, Talk;
    Naming(pt, b, times);
    HostHasNothing(b);
    Rests(pt, b, times, 6 + Swaps(pt), n, Done, times(6 + Swaps(pt)), Begun(pt, b) + Talk(IDENTITY),
          Host(b).(ninDock := IsDock(pt), ninCharger := IsCharger(pt)));
    Written(pt, b);
  }

  // ------------------------------------------------------- any other adapter

  /** A partner that is neither: asked for its modes and for DisplayPort's. It fails where it lists no mode, where
      DisplayPort is not listed, not answered for or without sink or DisplayPort support in its word, and where no
      pin assignment C or D is offered in the byte for its connector; else DisplayPort runs on the one taken. */
  lemma AdapterRun(pt: Partner, b: Block29, times: nat -> nat, n: nat)
    requires Sound(pt) && Spaced(times) && Choose(Profiles(b)) > 0
    requires !(pt.vid == 0x057E && pt.pid == 0x2003 && pt.kind == 5) && !(pt.vid == 0x057E && pt.pid == 0x2004)
    requires n >= 14
    ensures var d := Play(pt, b, times, n);
            var pins := if pt.caps[0] / 64 % 2 == 1 then pt.caps[2] else pt.caps[1];
            var pin := if pins / 8 % 2 == 1 then 8 else if pins / 4 % 2 == 1 then 4 else 0;
            var asked := [SetRdo(Request(b)), Cmd(0x0707), Cmd(0x0505)] + (if pt.host then [] else [Cmd(0x1818)])
                         + [Vdm([0x01, 0x80, 0x00, 0xFF]), Cmd(0x1111), Cmd(0x1616)]
                         + [Vdm([0x02, 0x80, 0x00, 0xFF]), Cmd(0x1111), Cmd(0x1616)];
            var modes := [Vdm([0x03, 0x80, 0x01, 0xFF]), Cmd(0x1111), Cmd(0x1616)];
            if pt.svids == [] then
              d.state == Failed && d.failedState == SvidAcc && !d.found.dpOn && d.sent == asked
            else if !(0xFF01 in pt.svids && pt.mode && pt.caps[0] % 2 == 1 && pt.caps[0] / 4 % 2 == 1) then
              d.state == Failed && d.failedState == ModeAcc && !d.found.dpOn && d.sent == asked + modes
            else if pin == 0 then
              d.state == Failed && d.failedState == DpEnterSent && d.found.dpOn
              && d.sent == asked + modes + [Cmd(0x3131)]
            else
              d.state == Done && d.found.dpOn && !d.found.ninDock && d.found.lanes == (if pin == 8 then 2 else 4)
              && d.sent == asked + modes + [Cmd(0x3131)] + [DpConfig([6, pin, 0, 0]), Cmd(0x3636)]
  {
    hide Play, Choose, Profiles, Request, Stands, Host, Config, PinFor, Begun, Talk, DoesDp;
    Naming(pt, b, times);
    var k, f := 6 + Swaps(pt), Host(b).(ninDock := IsDock(pt), ninCharger := IsCharger(pt));
    var sent := Begun(pt, b) + Talk(IDENTITY);
    Taking(pt, b, times, k, SvidSent, sent, SVIDS, f);
    PlayNext(pt, b, times, k + 1);
    TurnSvids(pt, b, Play(pt, b, times, k + 1), times(k + 1), times(k + 2), sent, f);
    HostHasNothing(b);
    AdapterModes(pt, b, times, k + 2, n, sent + Talk(SVIDS), f);
    Written(pt, b);
    AdapterPins(pt);
  }

  lemma HostHasNothing(b: Block29)
    requires Choose(Profiles(b)) > 0
    ensures !Host(b).dpOn && !Host(b).ledLit && !Host(b).ninMode && !Host(b).hubUp
  {
    hide Choose, Profiles;
  }

  /** The opening and the messages, written out. */
  lemma Written(pt: Partner, b: Block29)
    requires Choose(Profiles(b)) > 0
    ensures Begun(pt, b)
         == [SetRdo(Request(b)), Cmd(0x0707), Cmd(0x0505)] + (if pt.host then [] else [Cmd(0x1818)])
    ensures Talk(IDENTITY) == [Vdm([0x01, 0x80, 0x00, 0xFF]), Cmd(0x1111), Cmd(0x1616)]
    ensures Talk(SVIDS) == [Vdm([0x02, 0x80, 0x00, 0xFF]), Cmd(0x1111), Cmd(0x1616)]
    ensures Talk(MODES) == [Vdm([0x03, 0x80, 0x01, 0xFF]), Cmd(0x1111), Cmd(0x1616)]
    ensures Talk(NIN_MODE) == [Vdm([0x04, 0x81, 0x7E, 0x05]), Cmd(0x1111), Cmd(0x1616)]
    ensures Talk(STATE) == [Vdm([0x00, 0x00, 0x7E, 0x05, 0, 1, 0x16, 0x00]), Cmd(0x1111), Cmd(0x1616)]
    ensures Talk(LIGHT)
         == [Vdm([0x00, 0x00, 0x7E, 0x05, 1, 1, 0x01, 0x00, 64, 0, 0, 128]), Cmd(0x1111), Cmd(0x1616)]
    ensures Talk(HUB) == [Vdm([0x00, 0x00, 0x7E, 0x05, 1, 1, 0x20, 0x00]), Cmd(0x1111), Cmd(0x1616)]
  {
    hide Choose, Profiles, Request;
  }

  lemma AdapterPins(pt: Partner)
    requires Sound(pt) && !IsDock(pt)
    ensures var pins := if pt.caps[0] / 64 % 2 == 1 then pt.caps[2] else pt.caps[1];
            PinFor(pt) == if pins / 8 % 2 == 1 then 8 else if pins / 4 % 2 == 1 then 4 else 0
    ensures Config(pt) == [6, PinFor(pt), 0, 0]
    ensures DoesDp(pt) <==> 0xFF01 in pt.svids && pt.mode && pt.caps[0] % 2 == 1 && pt.caps[0] / 4 % 2 == 1
  {
    hide Taken;
    TakenIsFirst(if pt.caps[0] / 64 % 2 == 1 then pt.caps[2] else pt.caps[1]);
  }

  lemma TakenIsFirst(pins: Byte)
    ensures Taken(pins) == if pins / 8 % 2 == 1 then 8 else if pins / 4 % 2 == 1 then 4 else 0
  {
  }

  /** The rest of it, from the answer about its modes on. */
  lemma AdapterModes(pt: Partner, b: Block29, times: nat -> nat, k: nat, n: nat, sent: seq<Act>, f: Found)
    requires Sound(pt) && !IsDock(pt) && !f.ninDock && !f.dpOn && k + 5 <= n
    requires var d := Play(pt, b, times, k);
             if pt.svids != [] then Stands(d, ModeSent, times(k), sent + [Vdm(MODES), Cmd(0x1111)], f)
             else Broken(d, SvidAcc, times(k), sent, f)
    ensures var d := Play(pt, b, times, n);
            if pt.svids == [] then
              d.state == Failed && d.failedState == SvidAcc && !d.found.dpOn && d.sent == sent
            else if !DoesDp(pt) then
              d.state == Failed && d.failedState == ModeAcc && !d.found.dpOn && d.sent == sent + Talk(MODES)
            else if PinFor(pt) == 0 then
              d.state == Failed && d.failedState == DpEnterSent && d.found.dpOn
              && d.sent == sent + Talk(MODES) + [Cmd(0x3131)]
            else
              d.state == Done && d.found.dpOn && !d.found.ninDock
              && d.found.lanes == (if PinFor(pt) == 8 then 2 else 4)
              && d.sent == sent + Talk(MODES) + [Cmd(0x3131)] + [DpConfig(Config(pt)), Cmd(0x3636)]
  {
    hide Turn, Play, Talk, Config, PinFor, DoesDp;
    if pt.svids == [] {
      Rests(pt, b, times, k, n, Failed, times(k), sent, f);
    } else {
      Taking(pt, b, times, k, ModeSent, sent, MODES, f);
      PlayNext(pt, b, times, k + 1);
      TurnMode(pt, b, Play(pt, b, times, k + 1), times(k + 1), times(k + 2), sent, f);
      var s2, f2 := sent + Talk(MODES), f.(dpOn := true);
      if !DoesDp(pt) {
        Rests(pt, b, times, k + 2, n, Failed, times(k + 2), s2, f);
      } else {
        Configuring(pt, b, times, k + 2, s2, f2);
        if PinFor(pt) == 0 {
          Rests(pt, b, times, k + 3, n, Failed, times(k + 3), s2 + [Cmd(0x3131)], f2);
        } else {
          var s4 := s2 + [Cmd(0x3131)] + [DpConfig(Config(pt)), Cmd(0x3636)];
          var f4 := f2.(lanes := if PinFor(pt) == 8 then 2 else 4);
          PlayNext(pt, b, times, k + 4);
          TurnDetected(pt, b, Play(pt, b, times, k + 4), times(k + 4), times(k + 5), s4, f4);
          Rests(pt, b, times, k + 5, n, Done, times(k + 5), s4, f4);
        }
      }
    }
  }

  // ----------------------------------------------------------------- the dock

  /** The hub asked k times, each answer accepted. */
  function HubTalk(k: nat): seq<Act> {
    if k == 0 then []
    else HubTalk(k - 1) + [Vdm([0x00, 0x00, 0x7E, 0x05, 1, 1, 0x20, 0x00]), Cmd(0x1111), Cmd(0x1616)]
  }

  lemma {:induction false} AsksAdd(a: seq<Act>, b: seq<Act>)
    ensures HubAsks(a + b) == HubAsks(a) + HubAsks(b)
    decreases |b|
  {
    hide AsksHub;
    if b == [] {
      assert a + b == a;
    } else {
      var n := |b| - 1;
      assert (a + b)[..|a + b| - 1] == a + b[..n];
      AsksAdd(a, b[..n]);
    }
  }

  lemma {:induction false} NoAsks(sent: seq<Act>)
    requires forall a :: a in sent ==> !AsksHub(a)
    ensures HubAsks(sent) == 0
    decreases |sent|
  {
    hide AsksHub;
    if sent != [] {
      var n := |sent| - 1;
      assert sent[n] in sent;
      assert forall a :: a in sent[..n] ==> a in sent;
      NoAsks(sent[..n]);
    }
  }

  lemma TalkAsks(msg: seq<Byte>)
    ensures HubAsks(Talk(msg)) == if AsksHub(Vdm(msg)) then 1 else 0
  {
    hide AsksHub;
    assert !AsksHub(Cmd(0x1111)) && !AsksHub(Cmd(0x1616)) by {
      NoCommandAsks(0x1111);
      NoCommandAsks(0x1616);
    }
    var t := Talk(msg);
    assert t[..2][..1] == [Vdm(msg)] && t[..2] == [Vdm(msg), Cmd(0x1111)];
    assert HubAsks([Vdm(msg)]) == HubAsks([Vdm(msg)][..0]) + if AsksHub(Vdm(msg)) then 1 else 0;
    assert HubAsks(t[..2]) == HubAsks(t[..2][..1]);
  }

  lemma NoCommandAsks(code: nat)
    ensures !AsksHub(Cmd(code))
  {
  }

  lemma HubIsAsked()
    ensures AsksHub(Vdm(HUB))
    ensures Talk(HUB) == [Vdm([0x00, 0x00, 0x7E, 0x05, 1, 1, 0x20, 0x00]), Cmd(0x1111), Cmd(0x1616)]
  {
  }

  lemma {:induction false} HubTalkAsks(k: nat)
    ensures HubAsks(HubTalk(k)) == k
    decreases k
  {
    hide HubAsks, AsksHub, Talk;
    if k == 0 {
      NoAsks([]);
    } else {
      HubIsAsked();
      HubTalkAsks(k - 1);
      TalkAsks(HUB);
      AsksAdd(HubTalk(k - 1), Talk(HUB));
    }
  }

  /** The hub, asked until it is not busy: `k` times so far. */
  lemma {:induction false} HubRun(pt: Partner, b: Block29, times: nat -> nat, n: nat, k: nat, sent: seq<Act>, f: Found)
    requires Sound(pt) && k <= pt.busy && HubAsks(sent) == 0
    requires Stands(Play(pt, b, times, n), HubSent, times(n), sent + HubTalk(k) + [Vdm(HUB), Cmd(0x1111)], f)
    ensures var m := n + 2 * (pt.busy - k) + 2;
            Stands(Play(pt, b, times, m), Done, times(m), sent + HubTalk(pt.busy + 1), f.(hubUp := true))
    decreases pt.busy - k
  {
    hide Turn, Play, Stands, Talk, HubAsks;
    var so := sent + HubTalk(k);
    Taking(pt, b, times, n, HubSent, so, HUB, f);
    AsksAdd(so, Talk(HUB));
    AsksAdd(sent, HubTalk(k));
    HubTalkAsks(k);
    TalkAsks(HUB);
    HubIsAsked();
    assert so + Talk(HUB) == sent + HubTalk(k + 1);
    PlayNext(pt, b, times, n + 1);
    TurnHub(pt, b, Play(pt, b, times, n + 1), times(n + 1), times(n + 2), so, f);
    if k < pt.busy {
      HubRun(pt, b, times, n + 2, k + 1, sent, f);
    }
  }

  /** From the lanes configured to the hub's first question. */
  lemma Lighting(pt: Partner, b: Block29, times: nat -> nat, n: nat, sent: seq<Act>, f: Found)
    requires Sound(pt) && Spaced(times) && f.ninDock && !f.ledLit
    requires Stands(Play(pt, b, times, n), DpHpdWait, times(n), sent, f)
    ensures Stands(Play(pt, b, times, n + 6), HubSent, times(n + 6),
                   sent + Talk(STATE) + Talk(LIGHT) + [Vdm(HUB), Cmd(0x1111)], f.(ledLit := true))
  {
    hide Turn, Play, Stands, Talk;
    PlayNext(pt, b, times, n);
    TurnDetected(pt, b, Play(pt, b, times, n), times(n), times(n + 1), sent, f);
    Taking(pt, b, times, n + 1, QuerySent, sent, STATE, f);
    PlayNext(pt, b, times, n + 2);
    TurnState(pt, b, Play(pt, b, times, n + 2), times(n + 2), times(n + 3), sent + Talk(STATE), f);
    Taking(pt, b, times, n + 3, LedSent, sent + Talk(STATE), LIGHT, f);
    var s4 := sent + Talk(STATE) + Talk(LIGHT);
    PlayNext(pt, b, times, n + 4);
    TurnLight(pt, b, Play(pt, b, times, n + 4), times(n + 4), times(n + 5), s4, f);
    PlayNext(pt, b, times, n + 5);
    assert Apart(times, n + 5);
    TurnLight(pt, b, Play(pt, b, times, n + 5), times(n + 5), times(n + 6), s4, f.(ledLit := true));
  }

  /** Nintendo's dock: its own mode is entered, DisplayPort with the pin assignment in the third byte, then its
      state is read, its light lit, and its hub asked until it is not busy, once more than it says it is. It fails
      where it refuses its mode and where it offers neither assignment C nor D. */
  lemma DockRun(pt: Partner, b: Block29, times: nat -> nat, n: nat)
    requires Sound(pt) && Spaced(times) && Choose(Profiles(b)) > 0
    requires pt.vid == 0x057E && pt.pid == 0x2003 && pt.kind == 5 && n >= 19 + 2 * pt.busy
    ensures var d := Play(pt, b, times, n);
            var pin := if pt.caps[2] / 8 % 2 == 1 then 8 else if pt.caps[2] / 4 % 2 == 1 then 4 else 0;
            var asked := [SetRdo(Request(b)), Cmd(0x0707), Cmd(0x0505)] + (if pt.host then [] else [Cmd(0x1818)])
                         + [Vdm([0x01, 0x80, 0x00, 0xFF]), Cmd(0x1111), Cmd(0x1616)]
                         + [Vdm([0x04, 0x81, 0x7E, 0x05]), Cmd(0x1111), Cmd(0x1616)];
            if !pt.ninMode then
              d.state == Failed && d.failedState == NinAcc && !d.found.dpOn && d.sent == asked
            else if pin == 0 then
              d.state == Failed && d.failedState == DpEnterSent && d.found.dpOn && d.sent == asked + [Cmd(0x3131)]
            else
              d.state == Done && d.found.dpOn && d.found.ninDock && d.found.ninMode && d.found.ledLit && d.found.hubUp
              && d.found.lanes == (if pin == 8 then 2 else 4)
              && d.sent == asked + [Cmd(0x3131)] + [DpConfig([6, 0, pin, 0]), Cmd(0x3636)]
                           + [Vdm([0x00, 0x00, 0x7E, 0x05, 0, 1, 0x16, 0x00]), Cmd(0x1111), Cmd(0x1616)]
                           + [Vdm([0x00, 0x00, 0x7E, 0x05, 1, 1, 0x01, 0x00, 64, 0, 0, 128]), Cmd(0x1111), Cmd(0x1616)]
                           + HubTalk(pt.busy + 1)
  {
    hide Play, Choose, Profiles, Request, Stands, Host, Config, PinFor, Begun, Talk, HubTalk;
    Naming(pt, b, times);
    var k, f := 6 + Swaps(pt), Host(b).(ninDock := IsDock(pt), ninCharger := IsCharger(pt));
    var sent := Begun(pt, b) + Talk(IDENTITY);
    Taking(pt, b, times, k, NinSent, sent, NIN_MODE, f);
    PlayNext(pt, b, times, k + 1);
    TurnNinMode(pt, b, Play(pt, b, times, k + 1), times(k + 1), times(k + 2), sent, f);
    HostHasNothing(b);
    OpeningAsksNothing(pt, b);
    DockMode(pt, b, times, k + 2, n, sent + Talk(NIN_MODE), f);
    Written(pt, b);
    DockPins(pt);
  }

  lemma DockPins(pt: Partner)
    requires Sound(pt) && IsDock(pt)
    ensures PinFor(pt) == if pt.caps[2] / 8 % 2 == 1 then 8 else if pt.caps[2] / 4 % 2 == 1 then 4 else 0
    ensures Config(pt) == [6, 0, PinFor(pt), 0]
  {
    hide Taken;
    TakenIsFirst(pt.caps[2]);
  }

  lemma OpeningAsksNothing(pt: Partner, b: Block29)
    requires Choose(Profiles(b)) > 0
    ensures HubAsks(Begun(pt, b) + Talk(IDENTITY) + Talk(NIN_MODE)) == 0
  {
    hide HubAsks, Choose, Profiles, Request;
    NoAsks(Begun(pt, b));
    TalkAsks(IDENTITY);
    TalkAsks(NIN_MODE);
    AsksAdd(Begun(pt, b), Talk(IDENTITY));
    AsksAdd(Begun(pt, b) + Talk(IDENTITY), Talk(NIN_MODE));
  }

  /** The rest of it, from the answer about its mode on. */
  lemma DockMode(pt: Partner, b: Block29, times: nat -> nat, k: nat, n: nat, sent: seq<Act>, f: Found)
    requires Sound(pt) && Spaced(times) && IsDock(pt) && f.ninDock && !f.dpOn && !f.ledLit
    requires k + 2 * pt.busy + 10 <= n && HubAsks(sent) == 0
    requires var d := Play(pt, b, times, k);
             if pt.ninMode then
               Stands(d, DpEnterSent, times(k), sent + [Cmd(0x3131)], f.(ninMode := true, dpOn := true))
             else Broken(d, NinAcc, times(k), sent, f)
    ensures var d := Play(pt, b, times, n);
            if !pt.ninMode then
              d.state == Failed && d.failedState == NinAcc && !d.found.dpOn && d.sent == sent
            else if PinFor(pt) == 0 then
              d.state == Failed && d.failedState == DpEnterSent && d.found.dpOn && d.sent == sent + [Cmd(0x3131)]
            else
              d.state == Done && d.found.dpOn && d.found.ninDock && d.found.ninMode && d.found.ledLit && d.found.hubUp
              && d.found.lanes == (if PinFor(pt) == 8 then 2 else 4)
              && d.sent == sent + [Cmd(0x3131)] + [DpConfig(Config(pt)), Cmd(0x3636)] + Talk(STATE) + Talk(LIGHT)
                           + HubTalk(pt.busy + 1)
  {
    hide Turn, Play, Talk, Config, PinFor, HubAsks;
    if !pt.ninMode {
      Rests(pt, b, times, k, n, Failed, times(k), sent, f);
    } else {
      var f1 := f.(ninMode := true, dpOn := true);
      Configuring(pt, b, times, k, sent, f1);
      if PinFor(pt) == 0 {
        Rests(pt, b, times, k + 1, n, Failed, times(k + 1), sent + [Cmd(0x3131)], f1);
      } else {
        DockWorks(pt, b, times, k + 2, n, sent, f1.(lanes := if PinFor(pt) == 8 then 2 else 4));
      }
    }
  }

  /** The lanes configured: the light, and the hub until it is up. */
  lemma DockWorks(pt: Partner, b: Block29, times: nat -> nat, k: nat, n: nat, sent: seq<Act>, f: Found)
    requires Sound(pt) && Spaced(times) && f.ninDock && !f.ledLit && k + 2 * pt.busy + 8 <= n && HubAsks(sent) == 0
    requires Stands(Play(pt, b, times, k), DpHpdWait, times(k),
                    sent + [Cmd(0x3131)] + [DpConfig(Config(pt)), Cmd(0x3636)], f)
    ensures Stands(Play(pt, b, times, n), Done, times(k + 8 + 2 * pt.busy),
                   sent + [Cmd(0x3131)] + [DpConfig(Config(pt)), Cmd(0x3636)] + Talk(STATE) + Talk(LIGHT)
                   + HubTalk(pt.busy + 1), f.(ledLit := true, hubUp := true))
  {
    hide Turn, Play, Talk, Config, HubAsks, Stands, HubTalk;
    var s2 := sent + [Cmd(0x3131)] + [DpConfig(Config(pt)), Cmd(0x3636)];
    var s8 := s2 + Talk(STATE) + Talk(LIGHT);
    Lighting(pt, b, times, k, s2, f);
    LightingAsksNothing(pt, sent);
    NoTalk(s8);
    HubRun(pt, b, times, k + 6, 0, s8, f.(ledLit := true));
    var m := k + 8 + 2 * pt.busy;
    Rests(pt, b, times, m, n, Done, times(m), s8 + HubTalk(pt.busy + 1), f.(ledLit := true, hubUp := true));
  }

  lemma NoTalk(sent: seq<Act>)
    ensures sent + HubTalk(0) == sent
  {
  }

  lemma LightingAsksNothing(pt: Partner, sent: seq<Act>)
    requires Sound(pt) && HubAsks(sent) == 0
    ensures HubAsks(sent + [Cmd(0x3131)] + [DpConfig(Config(pt)), Cmd(0x3636)] + Talk(STATE) + Talk(LIGHT)) == 0
  {
    hide HubAsks, Config;
    var a, c := [Cmd(0x3131)], [DpConfig(Config(pt)), Cmd(0x3636)];
    NoAsks(a);
    NoAsks(c);
    TalkAsks(STATE);
    TalkAsks(LIGHT);
    AsksAdd(sent, a);
    AsksAdd(sent + a, c);
    AsksAdd(sent + a + c, Talk(STATE));
    AsksAdd(sent + a + c + Talk(STATE), Talk(LIGHT));
  }

  // ------------------------------------------------------------- no power

  /** An offer with nothing to take fails at the second poll, with nothing sent. */
  lemma NoPowerRun(pt: Partner, b: Block29, times: nat -> nat, n: nat)
    requires Sound(pt) && Spaced(times) && Choose(Profiles(b)) == 0 && Profiles(b) != [] && n >= 2
    ensures var d := Play(pt, b, times, n);
            d.state == Failed && d.failedState == WaitPlug && d.sent == [] && !d.found.dpOn
  {
    hide Play, Choose, Profiles;
    SecondTurn(pt, b, times);
    var d := Play(pt, b, times, 2);
    Rests(pt, b, times, 2, n, Failed, d.since, d.sent, d.found);
  }

  // -------------------------------------------------------- at every poll

  lemma SendGrows(d: Dock, msg: seq<Byte>, next: State, p: Poll)
    ensures d.sent <= SendVdm(d, msg, next, p).sent
  {
  }

  lemma CmdDoneKeepsSent(d: Dock, p: Poll)
    ensures CmdDone(d, p).1.sent == d.sent
  {
    hide Has, Without, Busy, LastCmdBad, TimedOut;
  }

  lemma PowerGrows(d: Dock, p: Poll)
    ensures d.sent <= OnWaitPlug(d, p).sent && d.sent <= OnRdoSent(d, p).sent
  {
    hide Has, Without, TimedOut, Elapsed, Inserted, Offered, Choose, OpMa, Rdo, DockOffer, Decode;
  }

  lemma RolesGrow(d: Dock, p: Poll)
    ensures d.sent <= OnPsRdySent(d, p).sent && d.sent <= OnDrSwapSent(d, p).sent
  {
    CmdDoneKeepsSent(d, p);
    hide CmdDone, Without, RoleOf;
  }

  lemma IdentityGrows(d: Dock, p: Poll)
    ensures d.sent <= OnDiscIdAcc(d, p).sent && d.sent <= OnNinAcc(d, p).sent
  {
    CmdDoneKeepsSent(d, p);
    hide CmdDone, Without;
  }

  lemma ModesGrow(d: Dock, p: Poll)
    ensures d.sent <= OnSvidAcc(d, p).sent && d.sent <= OnModeAcc(d, p).sent
  {
    CmdDoneKeepsSent(d, p);
    hide CmdDone, Without, Bit;
  }

  lemma LanesGrow(d: Dock, p: Poll)
    ensures d.sent <= OnDpEnterSent(d, p).sent && d.sent <= OnDpCfgSent(d, p).sent && d.sent <= OnDpHpdWait(d, p).sent
  {
    CmdDoneKeepsSent(d, p);
    hide CmdDone, Without, Bit, Pins, PinOf, SignalOn, Elapsed, NdMessage;
  }

  lemma LightGrows(d: Dock, p: Poll)
    ensures d.sent <= OnQueryAcc(d, p).sent && d.sent <= OnLedAcc(d, p).sent && d.sent <= OnHubAcc(d, p).sent
  {
    CmdDoneKeepsSent(d, p);
    hide CmdDone, Without, Elapsed, NdMessage, HubReply, HubBusy;
  }

  lemma ReplyGrows(d: Dock, p: Poll)
    requires AwaitsVdm(d.state)
    ensures d.sent <= OnVdmSent(d, p).sent
  {
    hide Has, Without, TimedOut;
  }

  lemma SentGrows(d: Dock, p: Poll)
    ensures d.sent <= Next(d, p).sent
  {
    hide Handle, OnVdmSent, OnWaitPlug, OnRdoSent, OnPsRdySent, OnDrSwapSent, OnDiscIdAcc, OnNinAcc, OnSvidAcc,
      OnModeAcc, OnDpEnterSent, OnDpCfgSent, OnDpHpdWait, OnQueryAcc, OnLedAcc, OnHubAcc, Inserted, Faulty, With;
    var d1 := Sample(d, p);
    if Over(d) {
      if d.state == Done {
        DoneIsLeft(d1, p);
      }
    } else {
      DockHubLoop.Dispatch(d1, p);
      PowerGrows(d1, p);
      RolesGrow(d1, p);
      IdentityGrows(d1, p);
      ModesGrow(d1, p);
      LanesGrow(d1, p);
      LightGrows(d1, p);
      if AwaitsVdm(d1.state) {
        ReplyGrows(d1, p);
      }
    }
  }

  /** Nothing sent is ever taken back: what was sent by any poll begins what is sent in the end, so the runs above
      give the whole course and not only its end. */
  lemma {:induction false} SoFar(pt: Partner, b: Block29, times: nat -> nat, n: nat, m: nat)
    requires Sound(pt) && n <= m
    ensures Play(pt, b, times, n).sent <= Play(pt, b, times, m).sent
    decreases m - n
  {
    hide Next, Play, Answer;
    if n < m {
      SoFar(pt, b, times, n, m - 1);
      PlayNext(pt, b, times, m - 1);
      SentGrows(Play(pt, b, times, m - 1), Answer(pt, b, Play(pt, b, times, m - 1), times(m)));
    }
  }
}
