/** What can sit at the other end of the cable, and how it answers (section 6.4.4 of the USB Power Delivery
    R3.0 specification): every reply is encoded from a description of the partner and the bytes of the
    request, and the handshake is polled against it. */
module DockPartners {
  import opened Bits
  import opened PowerProfiles
  import opened DockSpec

  /** A partner: the ids and the product type of its identity, with the bits around the type; whether it
      takes Nintendo's own mode; the other modes it lists; whether it answers for DisplayPort with a mode, and
      that mode's word, low byte first; how often its hub says busy; whether the console comes up as the data
      host; and what the controller's register holds behind a message. */
  datatype Partner = Partner(
    vid: nat, pid: nat, kind: nat, above: nat, below: nat, ninMode: bool,
    svids: seq<nat>, mode: bool, caps: seq<Byte>, busy: nat, host: bool, behind: Block29)

  predicate Sound(pt: Partner) {
    && pt.vid < 0x1_0000 && pt.pid < 0x1_0000 && pt.kind < 8 && pt.above < 4 && pt.below < 8
    && |pt.caps| == 4 && |pt.svids| <= 12 && (forall s :: s in pt.svids ==> s < 0x1_0000)
  }

  /** A message as the controller's register shows it: its length, its bytes, and anything behind them. */
  function Register(pt: Partner, msg: seq<Byte>): (r: Block29)
    requires |msg| <= 28
    ensures r[0] == |msg| && forall i :: 0 <= i < |msg| ==> r[i + 1] == msg[i]
  {
    var n: Byte := |msg|;
    [n] + msg + pt.behind[|msg| + 1..]
  }

  /** Two modes a word, the first in its upper half. */
  function ModeWords(svids: seq<nat>): (b: seq<Byte>)
    requires forall s :: s in svids ==> s < 0x1_0000
    ensures |b| <= 2 * |svids| + 2 && |b| <= 2 * |svids| + 2 * (|svids| % 2)
    decreases |svids|
  {
    if svids == [] then []
    else
      var first, second := Half(svids, 0), if |svids| == 1 then [0, 0] else Half(svids, 1);
      var rest := if |svids| == 1 then [] else svids[2..];
      assert forall s :: s in rest ==> s in svids;
      second + first + ModeWords(rest)
  }

  function Half(svids: seq<nat>, i: nat): (b: seq<Byte>)
    requires i < |svids| && forall s :: s in svids ==> s < 0x1_0000
    ensures |b| == 2
  {
    assert svids[i] in svids;
    [svids[i] % 0x100, svids[i] / 0x100]
  }

  /** The reply to a message, the hub having been asked `asks` times so far. */
  function ReplyTo(pt: Partner, msg: seq<Byte>, asks: nat): Block29
    requires Sound(pt)
  {
    if msg == [0x01, 0x80, 0x00, 0xFF] then
      Register(pt, [0x41, 0x80, 0x00, 0xFF,
                pt.vid % 0x100, pt.vid / 0x100, 0, 64 * pt.above + 8 * pt.kind + pt.below,
                0, 0, 0, 0,
                0, 0, pt.pid % 0x100, pt.pid / 0x100])
    else if msg == [0x04, 0x81, 0x7E, 0x05] then
      Register(pt, [if pt.ninMode then 0x44 else 0x84, 0x81, 0x7E, 0x05])
    else if msg == [0x02, 0x80, 0x00, 0xFF] then
      Register(pt, [if pt.svids != [] then 0x42 else 0x82, 0x80, 0x00, 0xFF] + ModeWords(pt.svids))
    else if msg == [0x03, 0x80, 0x01, 0xFF] then
      Register(pt, if 0xFF01 !in pt.svids then [0x83, 0x80, 0x01, 0xFF]
                   else [0x43, 0x80, 0x01, 0xFF] + if pt.mode then pt.caps else [])
    else if |msg| >= 8 && msg[..4] == [0x00, 0x00, 0x7E, 0x05] then
      var busy: Byte := if msg[6] == 0x20 && asks <= pt.busy then 1 else 0;
      var named: Byte := (msg[6] as int + 1) % 0x100;
      Register(pt, [0x00, 0x00, 0x7E, 0x05, busy, 2, named, 0, 0, 0, 0, 0])
    else Register(pt, [])
  }

  /** Is this the request to power the dock's hub? */
  predicate AsksHub(a: Act) {
    a.Vdm? && |a.msg| == 8 && a.msg[4] == 1 && a.msg[6] == 0x20
  }

  function HubAsks(sent: seq<Act>): nat
    decreases |sent|
  {
    if sent == [] then 0 else HubAsks(sent[..|sent| - 1]) + (if AsksHub(sent[|sent| - 1]) then 1 else 0)
  }

  /** What the incoming message register shows after what was sent: the reply to the last message once it is
      accepted, the mode's word once the mode is entered. */
  function Shown(pt: Partner, sent: seq<Act>): Block29
    requires Sound(pt)
  {
    var n := |sent|;
    if n >= 1 && sent[n - 1] == Cmd(0x3131) then Register(pt, pt.caps)
    else if n >= 3 && sent[n - 1] == Cmd(0x1616) && sent[n - 3].Vdm? then
      ReplyTo(pt, sent[n - 3].msg, HubAsks(sent))
    else Register(pt, [])
  }

  /** The chosen profile, as the contract shows it. */
  function Contract(b: Block29): (c: Block5) {
    var pick := Choose(Profiles(b));
    if pick == 0 then [0, 0, 0, 0, 0] else [4] + b[4 * pick - 3..4 * pick + 1]
  }

  /** A poll that finds everything done: plugged in, the alerts for a completion, a reply and a contract, the
      data role as it is or as it was swapped to, hot plug detected. `b` holds the profiles offered. */
  function Answer(pt: Partner, b: Block29, d: Dock, t: nat): Poll
    requires Sound(pt)
  {
    Poll(t, t, 0x1804, if pt.host || Cmd(0x1818) in d.sent then 0x0280 else 0x0180, 0,
         true, b, true, Contract(b), Shown(pt, d.sent), true, true)
  }

  function Turn(pt: Partner, b: Block29, d: Dock, t: nat): Dock
    requires Sound(pt)
  {
    Next(d, Answer(pt, b, d, t))
  }

  /** The handshake after n polls, the k-th at times(k). */
  function Play(pt: Partner, b: Block29, times: nat -> nat, n: nat): Dock
    requires Sound(pt)
  {
    if n == 0 then Start(Answer(pt, b, Dock(Idle, 0, 0, 0, 0, 0, false, NothingFound(), Idle, []), times(0)))
    else Turn(pt, b, Play(pt, b, times, n - 1), times(n))
  }

  /** Half a second and more between two polls. */
  predicate Apart(times: nat -> nat, k: nat) {
    500 <= times(k + 1) - times(k) < WORD
  }

  ghost predicate Spaced(times: nat -> nat) {
    forall k: nat :: Apart(times, k)
  }

  // ------------------------------------------------------------- one poll

  /** A sampled poll that found everything done. */
  predicate Prompt(d: Dock, p: Poll) {
    && p.now == p.stamp && p.wrOk && p.hpd && p.pdosOk && p.contractOk
    && Inserted(d.s1) && Has(d.alerts, AL_VDM_RECEIVED) && Has(d.alerts, AL_CONTRACT)
    && CmdDone(d, p) == (Complete, d.(alerts := CmdDone(d, p).1.alerts))
  }

  predicate Ended(d: Dock) {
    d.state == Idle || d.state == Failed
  }

  lemma StatusMeans()
    ensures Inserted(0x0280) && !Faulty(0x0280) && !Busy(0x0280) && !LastCmdBad(0x0280) && RoleOf(0x0280) == Dfp
    ensures Inserted(0x0180) && !Faulty(0x0180) && !Busy(0x0180) && !LastCmdBad(0x0180) && RoleOf(0x0180) == Ufp
  {
  }

  lemma AlertsArrive(a: bv16)
    ensures var w := With(a, 0x1804);
            Has(w, AL_CMD_DONE) && Has(w, AL_VDM_RECEIVED) && Has(w, AL_CONTRACT)
  {
    assert (a | 0x1804) & AL_CMD_DONE == AL_CMD_DONE;
    assert (a | 0x1804) & AL_VDM_RECEIVED == AL_VDM_RECEIVED;
    assert (a | 0x1804) & AL_CONTRACT == AL_CONTRACT;
  }

  lemma CmdDoneIs(d: Dock, p: Poll)
    requires Has(d.alerts, AL_CMD_DONE) && !Busy(d.s1) && !LastCmdBad(d.s1)
    ensures CmdDone(d, p) == (Complete, d.(alerts := CmdDone(d, p).1.alerts))
  {
    hide Has, Without, Busy, LastCmdBad, TimedOut;
  }

  lemma TurnIsHandled(pt: Partner, b: Block29, d: Dock, t: nat)
    requires Sound(pt) && !Ended(d)
    ensures var p := Answer(pt, b, d, t);
            var d1 := Sample(d, p);
            && Turn(pt, b, d, t) == Handle(d1, p) && Prompt(d1, p) && p.stamp == t
            && d1.s1 == (if pt.host || Cmd(0x1818) in d.sent then 0x0280 else 0x0180)
  {
    hide Handle, Has, With, Faulty, Inserted, Busy, LastCmdBad, CmdDone, Shown, Contract;
    StatusMeans();
    AlertsArrive(d.alerts);
    CmdDoneIs(Sample(d, Answer(pt, b, d, t)), Answer(pt, b, d, t));
  }

  // ------------------------------------------------- what each poll comes to

  /** From d the handshake went on to e: the new state at time t, `more` sent, f found. */
  predicate Went(d: Dock, e: Dock, s: State, t: nat, more: seq<Act>, f: Found) {
    e.state == s && e.since == t && e.tries == 0 && e.sent == d.sent + more && e.found == f
  }

  predicate WentWrong(d: Dock, e: Dock, t: nat) {
    Went(d, e, Failed, t, [], d.found) && e.failedState == d.state
  }

  lemma OnReply(d: Dock, p: Poll)
    requires AwaitsVdm(d.state) && Prompt(d, p)
    ensures Went(d, OnVdmSent(d, p), Accepting(d.state), p.stamp, [Cmd(0x1616)], d.found)
  {
    hide CmdDone, Has, Without, Inserted;
  }

  lemma OnContract(d: Dock, p: Poll)
    requires d.state == RdoSent && Prompt(d, p)
    ensures Went(d, OnRdoSent(d, p), PsRdySent, p.stamp, [Cmd(0x0505)],
                 if p.contract[0] == 4 then d.found.(got := Decode(Word(p.contract, 1))) else d.found)
  {
    hide CmdDone, Has, Without, Inserted, Decode;
  }

  lemma OnSinkReady(d: Dock, p: Poll)
    requires d.state == PsRdySent && Prompt(d, p) && RoleOf(d.s1) != NoRole
    ensures RoleOf(d.s1) == Dfp ==>
              Went(d, OnPsRdySent(d, p), DiscIdSent, p.stamp, [Vdm([0x01, 0x80, 0x00, 0xFF]), Cmd(0x1111)],
                   d.found.(role := Dfp))
    ensures RoleOf(d.s1) == Ufp ==>
              Went(d, OnPsRdySent(d, p), DrSwapSent, p.stamp, [Cmd(0x1818)], d.found.(role := Ufp))
  {
    hide CmdDone, Has, Without, Inserted, RoleOf;
  }

  lemma OnSwapped(d: Dock, p: Poll)
    requires d.state == DrSwapSent && Prompt(d, p) && RoleOf(d.s1) == Dfp
    ensures Went(d, OnDrSwapSent(d, p), DiscIdSent, p.stamp, [Vdm([0x01, 0x80, 0x00, 0xFF]), Cmd(0x1111)],
                 d.found.(role := Dfp))
  {
    hide CmdDone, Has, Without, Inserted, RoleOf;
  }

  /** Who the message says it is. */
  predicate SaysItIs(vdm: Block29, vid: nat, pid: nat, kind: nat) {
    && vdm[1] == 0x41 && vdm[5] as int + 0x100 * vdm[6] as int == vid
    && vdm[15] as int + 0x100 * vdm[16] as int == pid && vdm[8] / 8 % 8 == kind
  }

  lemma OnIdentity(d: Dock, p: Poll, vid: nat, pid: nat, kind: nat)
    requires d.state == DiscIdAcc && Prompt(d, p) && SaysItIs(p.vdm, vid, pid, kind)
    ensures var dock, charger := vid == 0x057E && pid == 0x2003 && kind == 5, vid == 0x057E && pid == 0x2004;
            var f := d.found.(ninDock := dock, ninCharger := charger);
            if dock then
              Went(d, OnDiscIdAcc(d, p), NinSent, p.stamp, [Vdm([0x04, 0x81, 0x7E, 0x05]), Cmd(0x1111)], f)
            else if charger then Went(d, OnDiscIdAcc(d, p), Done, p.stamp, [], f)
            else Went(d, OnDiscIdAcc(d, p), SvidSent, p.stamp, [Vdm([0x02, 0x80, 0x00, 0xFF]), Cmd(0x1111)], f)
  {
    hide CmdDone, Has, Without, Inserted;
  }

  /** An answer that does not say who it is fails. */
  lemma OnNoIdentity(d: Dock, p: Poll)
    requires d.state == DiscIdAcc && Prompt(d, p) && p.vdm[1] != 0x41
    ensures WentWrong(d, OnDiscIdAcc(d, p), p.stamp)
  {
    hide CmdDone, Has, Without, Inserted;
  }

  /** The dock's mode is entered exactly on the acknowledgement of its own request. */
  lemma OnNinMode(d: Dock, p: Poll)
    requires d.state == NinAcc && Prompt(d, p)
    ensures if p.vdm[1..5] == [0x44, 0x81, 0x7E, 0x05] then
              Went(d, OnNinAcc(d, p), DpEnterSent, p.stamp, [Cmd(0x3131)], d.found.(ninMode := true, dpOn := true))
            else WentWrong(d, OnNinAcc(d, p), p.stamp)
  {
    var v := p.vdm[1..5];
    assert v[0] == p.vdm[1] && v[1] == p.vdm[2] && v[2] == p.vdm[3] && v[3] == p.vdm[4];
    assert v == [p.vdm[1], p.vdm[2], p.vdm[3], p.vdm[4]];
    hide CmdDone, Has, Without, Inserted;
  }

  /** DisplayPort's mode is asked for exactly on an acknowledged list. */
  lemma OnSvids(d: Dock, p: Poll)
    requires d.state == SvidAcc && Prompt(d, p)
    ensures if p.vdm[1] == 0x42 then
              Went(d, OnSvidAcc(d, p), ModeSent, p.stamp, [Vdm([0x03, 0x80, 0x01, 0xFF]), Cmd(0x1111)], d.found)
            else WentWrong(d, OnSvidAcc(d, p), p.stamp)
  {
    hide CmdDone, Has, Without, Inserted;
  }

  /** DisplayPort is entered exactly on an acknowledged answer for FF01 with a word that has the sink bit and the
      DisplayPort bit. */
  lemma OnMode(d: Dock, p: Poll)
    requires d.state == ModeAcc && Prompt(d, p)
    ensures if p.vdm[0] > 4 && p.vdm[1] == 0x43 && p.vdm[3] == 0x01 && p.vdm[4] == 0xFF
               && p.vdm[5] % 2 == 1 && p.vdm[5] / 4 % 2 == 1 then
              Went(d, OnModeAcc(d, p), DpEnterSent, p.stamp, [Cmd(0x3131)], d.found.(dpOn := true))
            else WentWrong(d, OnModeAcc(d, p), p.stamp)
  {
    hide CmdDone, Has, Without, Inserted;
    BitsAre(p.vdm[5]);
    hide Bit;
  }

  lemma BitsAre(b: Byte)
    ensures Bit(b, 0) <==> b % 2 == 1
    ensures Bit(b, 2) <==> b / 4 % 2 == 1
    ensures Bit(b, 3) <==> b / 8 % 2 == 1
    ensures Bit(b, 6) <==> b / 64 % 2 == 1
  {
  }

  /** The pin assignment taken from a byte that offers some: D before C. */
  function Taken(pins: Byte): Byte {
    if pins / 8 % 2 == 1 then 8 else if pins / 4 % 2 == 1 then 4 else 0
  }

  lemma TakenIs(pins: Byte)
    ensures Taken(pins) == 8 || Taken(pins) == 4 || Taken(pins) == 0
  {
  }

  lemma PinIsTaken(ninDock: bool, msg: Block29)
    ensures PinOf(Pins(ninDock, msg)) == Taken(if ninDock || msg[1] / 64 % 2 == 1 then msg[3] else msg[2])
  {
    BitsAre(msg[1]);
    BitsAre(msg[2]);
    BitsAre(msg[3]);
    hide Bit;
  }

  lemma OnEntered(d: Dock, p: Poll)
    requires d.state == DpEnterSent && Prompt(d, p) && p.vdm[0] == 4
    ensures var pins := if d.found.ninDock || p.vdm[1] / 64 % 2 == 1 then p.vdm[3] else p.vdm[2];
            var pin := Taken(pins);
            if pin == 0 then WentWrong(d, OnDpEnterSent(d, p), p.stamp)
            else
              Went(d, OnDpEnterSent(d, p), DpCfgSent, p.stamp,
                   [DpConfig(if d.found.ninDock then [6, 0, pin, 0] else [6, pin, 0, 0]), Cmd(0x3636)],
                   d.found.(lanes := if pin == 8 then 2 else 4))
  {
    PinIsTaken(d.found.ninDock, p.vdm);
    TakenIs(if d.found.ninDock || p.vdm[1] / 64 % 2 == 1 then p.vdm[3] else p.vdm[2]);
    hide CmdDone, Has, Without, Inserted, Bit, Pins, PinOf, Taken;
  }

  lemma OnConfigured(d: Dock, p: Poll)
    requires d.state == DpCfgSent && Prompt(d, p)
    ensures Went(d, OnDpCfgSent(d, p), DpHpdWait, p.stamp, [], d.found)
  {
    hide CmdDone, Has, Without, Inserted;
  }

  lemma OnDetected(d: Dock, p: Poll)
    requires d.state == DpHpdWait && Prompt(d, p)
    ensures d.found.ninDock ==>
              Went(d, OnDpHpdWait(d, p), QuerySent, p.stamp,
                   [Vdm([0x00, 0x00, 0x7E, 0x05, 0, 1, 0x16, 0x00]), Cmd(0x1111)], d.found)
    ensures !d.found.ninDock ==> Went(d, OnDpHpdWait(d, p), Done, p.stamp, [], d.found)
  {
    hide CmdDone, Has, Without, Inserted;
    assert NdMessage(false, ND_STATE, []) == [0x00, 0x00, 0x7E, 0x05, 0, 1, 0x16, 0x00];
  }

  lemma OnState(d: Dock, p: Poll)
    requires d.state == QueryAcc && Prompt(d, p)
    ensures Went(d, OnQueryAcc(d, p), LedSent, p.stamp,
                 [Vdm([0x00, 0x00, 0x7E, 0x05, 1, 1, 0x01, 0x00, 64, 0, 0, 128]), Cmd(0x1111)], d.found)
  {
    hide CmdDone, Has, Without, Inserted;
    assert NdMessage(true, ND_LED, LED_ON) == [0x00, 0x00, 0x7E, 0x05, 1, 1, 0x01, 0x00, 64, 0, 0, 128];
  }

  lemma HubMessage()
    ensures NdMessage(true, ND_HUB, []) == [0x00, 0x00, 0x7E, 0x05, 1, 1, 0x20, 0x00]
  {
  }

  lemma OnLight(d: Dock, p: Poll)
    requires d.state == LedAcc && Prompt(d, p) && d.tries == 0
    ensures !d.found.ledLit ==> Went(d, OnLedAcc(d, p), LedAcc, p.stamp, [], d.found.(ledLit := true))
    ensures d.found.ledLit && 500 <= p.now - d.since < WORD ==>
              Went(d, OnLedAcc(d, p), HubSent, p.stamp,
                   [Vdm([0x00, 0x00, 0x7E, 0x05, 1, 1, 0x20, 0x00]), Cmd(0x1111)], d.found)
  {
    hide CmdDone, Has, Without, Inserted;
    HubMessage();
    hide NdMessage;
  }

  /** The hub is asked again exactly on a reply for its request with the busy bit; any other answer is the end, and a
      reply without the bit says that it is up. */
  lemma OnHub(d: Dock, p: Poll)
    requires d.state == HubAcc && Prompt(d, p) && d.tries == 0
    ensures var replied := p.vdm[6] == 2 && p.vdm[7] == 0x21;
            if replied && p.vdm[5] % 2 == 1 then
              Went(d, OnHubAcc(d, p), HubSent, p.stamp,
                   [Vdm([0x00, 0x00, 0x7E, 0x05, 1, 1, 0x20, 0x00]), Cmd(0x1111)], d.found)
            else
              Went(d, OnHubAcc(d, p), Done, p.stamp, [], if replied then d.found.(hubUp := true) else d.found)
  {
    hide CmdDone, Has, Without, Inserted;
    HubMessage();
    BitsAre(p.vdm[5]);
    hide NdMessage, Bit;
  }
}
