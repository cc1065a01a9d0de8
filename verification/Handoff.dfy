/** Handing the PCIe accesses to CPU0 (`pcie_cpu_handoff`, probe_wifi.c): up to three boots of the same
    program, each waited for, with the mailbox cleared and the cluster powered down between them.

    CPU0 stores what it likes between any two polls; whether a boot comes up is arbitrary too. */
module Handoff {
  import opened Bits
  import opened Supervisor

  // ---------------------------------------------------------------- the mailbox

  type Word = w: int | 0 <= w < WORD witness 0

  /** The words of `cpu_mbox_t` the outcome depends on: the breadcrumb, AFI_PCIE_CONFIG as read, the write
      read back, the root port that came up, its endpoint's device and vendor, the latched error code. */
  datatype Field = Stage | Probe | Witness | Port | Endpoint | Latch

  datatype Store = PutMagic | PutHeartbeat | PutDone | PutWord(field: Field, value: Word)

  datatype Mail = Mail(
    magic: bool, heartbeat: nat, done: bool, diag: bool,
    stage: Word, probe: Word, witnessed: Word, port: Word, endpoint: Word, latch: Word)

  const CLEAR := Mail(false, 0, false, false, 0, 0, 0, 0, 0, 0)

  function Put(m: Mail, s: Store): Mail {
    match s
    case PutMagic => m.(magic := true)
    case PutHeartbeat => m.(heartbeat := (m.heartbeat + 1) % WORD)
    case PutDone => m.(done := true)
    case PutWord(Stage, v) => m.(stage := v)
    case PutWord(Probe, v) => m.(probe := v)
    case PutWord(Witness, v) => m.(witnessed := v)
    case PutWord(Port, v) => m.(port := v)
    case PutWord(Endpoint, v) => m.(endpoint := v)
    case PutWord(Latch, v) => m.(latch := v)
  }

  function PutAll(m: Mail, ss: seq<Store>): Mail
    decreases |ss|
  {
    if ss == [] then m else PutAll(Put(m, ss[0]), ss[1..])
  }

  lemma {:induction false} PutAllThen(m: Mail, ss: seq<Store>, tt: seq<Store>)
    ensures PutAll(m, ss + tt) == PutAll(PutAll(m, ss), tt)
    decreases |ss|
  {
    hide Put;
    if ss == [] {
      assert ss + tt == tt;
    } else {
      assert (ss + tt)[1..] == ss[1..] + tt;
      PutAllThen(Put(m, ss[0]), ss[1..], tt);
    }
  }

  /** Store k is the last one of that word. */
  ghost predicate LastOf(ss: seq<Store>, f: Field, k: nat) {
    k < |ss| && ss[k].PutWord? && ss[k].field == f
    && forall j :: k < j < |ss| ==> !(ss[j].PutWord? && ss[j].field == f)
  }

  /** What a list of stores leaves in a word that began as zero. */
  function LastWord(ss: seq<Store>, f: Field): (v: Word)
    ensures forall k: nat :: LastOf(ss, f, k) ==> v == ss[k].value
    ensures (forall k :: 0 <= k < |ss| ==> !(ss[k].PutWord? && ss[k].field == f)) ==> v == 0
    decreases |ss|
  {
    if ss == [] then 0
    else
      var n := |ss| - 1;
      assert forall k: nat :: LastOf(ss, f, k) ==> k == n || LastOf(ss[..n], f, k);
      if ss[n].PutWord? && ss[n].field == f then ss[n].value else LastWord(ss[..n], f)
  }

  /** A mailbox that was cleared holds the last store of every word, and whether there was a magic and an
      end. */
  predicate Reflects(m: Mail, ss: seq<Store>) {
    && m.stage == LastWord(ss, Stage) && m.probe == LastWord(ss, Probe) && m.witnessed == LastWord(ss, Witness)
    && m.port == LastWord(ss, Port) && m.endpoint == LastWord(ss, Endpoint) && m.latch == LastWord(ss, Latch)
    && (m.magic <==> PutMagic in ss) && (m.done <==> PutDone in ss)
  }

  lemma {:induction false} MailReflects(ss: seq<Store>)
    ensures Reflects(PutAll(CLEAR, ss), ss)
    decreases |ss|
  {
    if ss != [] {
      var n := |ss| - 1;
      assert ss == ss[..n] + [ss[n]];
      MailReflects(ss[..n]);
      PutAllThen(CLEAR, ss[..n], [ss[n]]);
      ReflectsNext(PutAll(CLEAR, ss[..n]), ss[..n], ss[n]);
      OneStore(PutAll(CLEAR, ss[..n]), ss[n]);
    }
  }

  lemma OneStore(m: Mail, s: Store)
    ensures PutAll(m, [s]) == Put(m, s)
  {
    assert PutAll(Put(m, s), []) == Put(m, s);
  }

  lemma LastWordNext(ss: seq<Store>, s: Store, f: Field)
    ensures LastWord(ss + [s], f) == if s.PutWord? && s.field == f then s.value else LastWord(ss, f)
  {
    assert (ss + [s])[..|ss|] == ss;
  }

  lemma ReflectsNext(m: Mail, ss: seq<Store>, s: Store)
    requires Reflects(m, ss)
    ensures Reflects(Put(m, s), ss + [s])
  {
    hide LastWord;
    LastWordNext(ss, s, Stage);
    LastWordNext(ss, s, Probe);
    LastWordNext(ss, s, Witness);
    LastWordNext(ss, s, Port);
    LastWordNext(ss, s, Endpoint);
    LastWordNext(ss, s, Latch);
  }

  function SnapOf(m: Mail): Snap {
    Snap(m.magic, m.heartbeat, m.done, m.stage)
  }

  /** The other processor and the power: whether the k-th boot comes up, what CPU0 stores before each
      poll of that boot, and the clocks that poll reads. */
  datatype World = World(comesUp: nat -> bool, stores: (nat, nat) -> seq<Store>, moved: (nat, nat) -> nat,
                         checked: (nat, nat) -> nat, begun: nat -> nat)

  /** The mailbox at the i-th poll of a boot that began with `first` in it. */
  function MailAt(w: World, boot: nat, first: Mail, i: nat): Mail
    decreases i
  {
    PutAll(if i == 0 then first else MailAt(w, boot, first, i - 1), w.stores(boot, i))
  }

  /** Everything CPU0 stored in a boot before poll i looked. */
  function Stored(w: World, boot: nat, i: nat): seq<Store>
    decreases i
  {
    (if i == 0 then [] else Stored(w, boot, i - 1)) + w.stores(boot, i)
  }

  lemma {:induction false} MailIsStored(w: World, boot: nat, i: nat)
    ensures Reflects(MailAt(w, boot, CLEAR, i), Stored(w, boot, i))
    ensures MailAt(w, boot, CLEAR, i) == PutAll(CLEAR, Stored(w, boot, i))
    decreases i
  {
    hide PutAll, Reflects;
    if i > 0 {
      MailIsStored(w, boot, i - 1);
      PutAllThen(CLEAR, Stored(w, boot, i - 1), w.stores(boot, i));
    } else {
      assert [] + w.stores(boot, 0) == w.stores(boot, 0);
    }
    MailReflects(Stored(w, boot, i));
  }

  function PollOf(w: World, boot: nat, i: nat): Poll {
    Poll(SnapOf(MailAt(w, boot, CLEAR, i)), w.moved(boot, i), w.checked(boot, i))
  }

  function PollsOf(w: World, boot: nat): nat -> Poll {
    (i: nat) => PollOf(w, boot, i)
  }

  /** What the wait of a boot decides. */
  function VerdictOf(w: World, boot: nat): Verdict {
    Watch(PollsOf(w, boot), 0, CEILING, 0, w.begun(boot), false)
  }

  /** The verdict of a wait against what was stored: alive and finished by the last poll, and not before. */
  ghost predicate Judges(w: World, boot: nat, v: Verdict) {
    && 0 < v.polls <= CEILING
    && (v.alive <==> PutMagic in Stored(w, boot, v.polls - 1))
    && (v.ending == Finished <==> PutDone in Stored(w, boot, v.polls - 1))
    && (v.polls > 1 ==> PutDone !in Stored(w, boot, v.polls - 2))
  }

  lemma PollShows(w: World, boot: nat, i: nat)
    ensures PollsOf(w, boot)(i).snap.magic <==> PutMagic in Stored(w, boot, i)
    ensures PollsOf(w, boot)(i).snap.done <==> PutDone in Stored(w, boot, i)
    ensures i > 0 && PutMagic in Stored(w, boot, i - 1) ==> PutMagic in Stored(w, boot, i)
  {
    hide MailAt, LastWord;
    MailIsStored(w, boot, i);
  }

  lemma {:induction false} JudgesFrom(w: World, boot: nat, i: nat, n: nat, lastHb: nat, lastMove: nat, alive: bool)
    requires n > 0 && i + n <= CEILING
    requires alive <==> i > 0 && PutMagic in Stored(w, boot, i - 1)
    requires i > 0 ==> PutDone !in Stored(w, boot, i - 1)
    ensures Judges(w, boot, Watch(PollsOf(w, boot), i, n, lastHb, lastMove, alive))
    decreases n
  {
    hide Window, Elapsed, CEILING, Watch, PollsOf, Stored;
    PollShows(w, boot, i);
    WatchStep(PollsOf(w, boot), i, n, lastHb, lastMove, alive);
    var snap := PollsOf(w, boot)(i).snap;
    var move := if snap.heartbeat != lastHb then PollsOf(w, boot)(i).moved else lastMove;
    if n == 1 {
      WatchEnds(PollsOf(w, boot), i + 1, snap.heartbeat, move, alive || snap.magic);
    } else if !snap.done {
      JudgesFrom(w, boot, i + 1, n - 1, snap.heartbeat, move, alive || snap.magic);
    }
  }

  /** Over every interleaving: an attempt is called alive exactly when CPU0 wrote the magic during that very
      boot, and finished exactly when it wrote the end; the mailbox it starts from was cleared. */
  lemma AliveMeansWritten(w: World, boot: nat)
    ensures Judges(w, boot, VerdictOf(w, boot))
  {
    hide Watch, Judges;
    JudgesFrom(w, boot, 0, CEILING, 0, w.begun(boot), false);
  }

  /** Without the clearing it would not: a mailbox left from the boot before is alive at the first poll,
      though this boot has stored nothing. */
  lemma StaleMailboxLooksAlive(w: World, boot: nat, left: Mail)
    requires left.magic && w.stores(boot, 0) == []
    ensures MailAt(w, boot, left, 0).magic && PutMagic !in Stored(w, boot, 0)
  {
    hide Put;
    assert PutAll(left, []) == left;
  }

  /** The mailbox is what i polls' worth of stores made it. */
  predicate Holds(w: World, boot: nat, m: Mail, i: nat) {
    m == if i == 0 then CLEAR else MailAt(w, boot, CLEAR, i - 1)
  }

  lemma HoldsNext(w: World, boot: nat, m: Mail, i: nat)
    requires Holds(w, boot, m, i)
    ensures var next := PutAll(m, w.stores(boot, i));
            && Holds(w, boot, next, i + 1) && next == MailAt(w, boot, CLEAR, i)
            && PollsOf(w, boot)(i) == Poll(SnapOf(next), w.moved(boot, i), w.checked(boot, i))
  {
    hide PutAll;
  }

  lemma WatchEnds(polls: nat -> Poll, i: nat, lastHb: nat, lastMove: nat, alive: bool)
    ensures Watch(polls, i, 0, lastHb, lastMove, alive) == Verdict(alive, RanOut, i)
  {
  }

  // ----------------------------------------------------------------- the power

  /** What is done to the cluster and to the mailbox. */
  datatype Event = Boot(ok: bool, diag: bool) | Gate | Clear

  function Boots(log: seq<Event>, diag: bool): nat
    decreases |log|
  {
    if log == [] then 0
    else Boots(log[..|log| - 1], diag) + (if log[|log| - 1].Boot? && log[|log| - 1].diag == diag then 1 else 0)
  }

  lemma BootsGrow(log: seq<Event>, e: Event, diag: bool)
    ensures Boots(log + [e], diag) == Boots(log, diag) + (if e.Boot? && e.diag == diag then 1 else 0)
  {
    assert (log + [e])[..|log|] == log;
  }

  /** The cluster is up after a boot that came up, until it is gated. */
  predicate Powered(log: seq<Event>)
    decreases |log|
  {
    log != [] && match log[|log| - 1]
                 case Boot(ok, _) => ok
                 case Gate => false
                 case Clear => Powered(log[..|log| - 1])
  }

  lemma PoweredGrows(log: seq<Event>, e: Event)
    ensures Powered(log + [e]) == match e case Boot(ok, _) => ok case Gate => false case Clear => Powered(log)
  {
    assert (log + [e])[..|log|] == log;
  }

  /** A boot is made on a cluster that is down, and an attempt's right after the clearing. */
  predicate BootOk(log: seq<Event>, k: nat)
    requires k < |log|
  {
    log[k].Boot? ==> !Powered(log[..k]) && (!log[k].diag ==> k > 0 && log[k - 1] == Clear)
  }

  /** No boot is made on a cluster that is up, and every attempt's boot finds a mailbox just cleared. */
  ghost predicate Disciplined(log: seq<Event>) {
    forall k :: 0 <= k < |log| ==> BootOk(log, k)
  }

  lemma BootStaysOk(log: seq<Event>, e: Event, k: nat)
    requires k < |log| && BootOk(log, k)
    ensures BootOk(log + [e], k)
  {
    hide Powered;
    assert (log + [e])[..k] == log[..k];
  }

  lemma LastBootOk(log: seq<Event>, e: Event)
    requires e.Boot? ==> !Powered(log) && (!e.diag ==> log != [] && log[|log| - 1] == Clear)
    ensures BootOk(log + [e], |log|)
  {
    hide Powered;
    assert (log + [e])[..|log|] == log;
  }

  lemma DisciplineGrows(log: seq<Event>, e: Event)
    requires Disciplined(log)
    requires e.Boot? ==> !Powered(log) && (!e.diag ==> log != [] && log[|log| - 1] == Clear)
    ensures Disciplined(log + [e])
  {
    hide Powered, BootOk;
    LastBootOk(log, e);
    forall k | 0 <= k < |log|
      ensures BootOk(log + [e], k)
    {
      BootStaysOk(log, e, k);
    }
  }

  // -------------------------------------------------------------- the supervisor

  datatype Outcome = NoPower | NeverStarted | Hung | NotDecoding | NoLink | OtherDevice | Enumerated

  /** What a finished attempt is reported as, by the words CPU0 stored last in that boot: whether the aperture
      decodes, whether the link came up on port 1, whether the endpoint is 14E4:43EC. */
  ghost predicate Reported(words: seq<Store>, finished: bool, outcome: Outcome) {
    var live := LastWord(words, Probe) != 0xFFFFFFFF && LastWord(words, Witness) == 0xA5A50000;
    && (outcome == NotDecoding <==> finished && !live)
    && (outcome == NoLink <==> finished && live && LastWord(words, Port) != 1)
    && (outcome == Enumerated <==>
          finished && live && LastWord(words, Port) == 1 && LastWord(words, Endpoint) == 0x43EC14E4)
    && (outcome == OtherDevice <==>
          finished && live && LastWord(words, Port) == 1 && LastWord(words, Endpoint) != 0x43EC14E4)
  }

  lemma ReportsWhatReflects(words: seq<Store>, m: Mail, outcome: Outcome)
    requires Reflects(m, words)
    requires outcome == if m.probe == 0xFFFFFFFF || m.witnessed != 0xA5A50000 then NotDecoding
                        else if m.port != 1 then NoLink
                        else if m.endpoint == 0x43EC14E4 then Enumerated else OtherDevice
    ensures Reported(words, true, outcome)
  {
    hide LastWord;
  }

  lemma ReportsNothing(words: seq<Store>, outcome: Outcome)
    requires outcome == NeverStarted || outcome == Hung
    ensures Reported(words, false, outcome)
  {
    hide LastWord;
  }

  /** What a handoff comes to. There are one to three attempts' boots and at most one diagnostic boot; every
      attempt that came up was judged by its wait, and every one before the last was alive and did not
      finish. With no power the last boot did not come up. Else the last attempt never started exactly
      when it was not alive, and hung exactly when it was alive and did not finish, which is after the
      third. There is a diagnostic boot exactly when it hung, the breadcrumb last stored was 10 or more and
      no error code was latched. */
  ghost predicate Handled(w: World, log: seq<Event>, verdicts: seq<Verdict>, outcome: Outcome) {
    && 1 <= Boots(log, false) <= 3 && Boots(log, true) <= 1
    && |verdicts| == Boots(log, false) - (if outcome == NoPower then 1 else 0)
    && (forall k :: 0 <= k < |verdicts| ==> verdicts[k] == VerdictOf(w, k) && w.comesUp(k))
    && (forall k :: 0 <= k < |verdicts| - 1 ==> verdicts[k].alive && verdicts[k].ending != Finished)
    && (outcome == NoPower ==>
          && !w.comesUp(|verdicts|) && Boots(log, true) == 0
          && (forall k :: 0 <= k < |verdicts| ==> verdicts[k].alive && verdicts[k].ending != Finished))
    && (outcome != NoPower ==>
          var last := verdicts[|verdicts| - 1];
          && last.polls > 0
          && (outcome == NeverStarted <==> !last.alive)
          && (outcome == Hung <==> last.alive && last.ending != Finished)
          && (outcome == Hung ==> |verdicts| == 3)
          && Reported(Stored(w, |verdicts| - 1, last.polls - 1), last.alive && last.ending == Finished, outcome)
          && var words := Stored(w, |verdicts| - 1, last.polls - 1);
             Boots(log, true) == 1 <==>
               outcome == Hung && LastWord(words, Stage) >= 10 && LastWord(words, Latch) == 0)
  }

  lemma ReportedIs(words: seq<Store>, outcome: Outcome)
    requires Reported(words, true, outcome)
    ensures outcome == if LastWord(words, Probe) == 0xFFFFFFFF || LastWord(words, Witness) != 0xA5A50000
                       then NotDecoding
                       else if LastWord(words, Port) != 1 then NoLink
                       else if LastWord(words, Endpoint) == 0x43EC14E4 then Enumerated else OtherDevice
  {
    hide LastWord;
  }

  /** A first attempt that finished is the only one. */
  lemma FirstIsLast(w: World, log: seq<Event>, verdicts: seq<Verdict>, outcome: Outcome)
    requires Handled(w, log, verdicts, outcome) && w.comesUp(0)
    requires VerdictOf(w, 0).ending == Finished && VerdictOf(w, 0).alive && VerdictOf(w, 0).polls > 0
    ensures Boots(log, false) == 1 && Boots(log, true) == 0
    ensures Reported(Stored(w, 0, VerdictOf(w, 0).polls - 1), true, outcome)
  {
    hide VerdictOf, Boots, Stored, LastWord, Reported;
  }

  /** Every attempt so far came up, was alive and did not finish. */
  ghost predicate AllHung(w: World, verdicts: seq<Verdict>) {
    forall k :: 0 <= k < |verdicts| ==>
      verdicts[k] == VerdictOf(w, k) && w.comesUp(k) && verdicts[k].alive && verdicts[k].ending != Finished
  }

  lemma HandledWithoutPower(w: World, log: seq<Event>, verdicts: seq<Verdict>)
    requires AllHung(w, verdicts) && |verdicts| < 3 && !w.comesUp(|verdicts|)
    requires Boots(log, false) == |verdicts| + 1 && Boots(log, true) == 0
    ensures Handled(w, log, verdicts, NoPower)
  {
    hide VerdictOf, Boots;
  }

  lemma HandledBy(w: World, log: seq<Event>, before: seq<Verdict>, v: Verdict, outcome: Outcome)
    requires AllHung(w, before) && |before| < 3 && w.comesUp(|before|) && v == VerdictOf(w, |before|) && v.polls > 0
    requires v.alive && v.ending != Finished ==> |before| == 2
    requires Boots(log, false) == |before| + 1
    requires outcome != NoPower && (outcome == NeverStarted <==> !v.alive)
    requires outcome == Hung <==> v.alive && v.ending != Finished
    requires Reported(Stored(w, |before|, v.polls - 1), v.alive && v.ending == Finished, outcome)
    requires var words := Stored(w, |before|, v.polls - 1);
             Boots(log, true) == if outcome == Hung && LastWord(words, Stage) >= 10 && LastWord(words, Latch) == 0
                                 then 1 else 0
    ensures Handled(w, log, before + [v], outcome)
  {
    hide VerdictOf, Boots, Stored, LastWord, Reported;
  }

  class Supervision {
    const world: World
    var mail: Mail
    var boots: nat
    var log: seq<Event>
    var verdicts: seq<Verdict>

    constructor (world: World)
      ensures this.world == world && log == [] && verdicts == [] && boots == 0
    {
      this.world := world;
      mail, boots, log, verdicts := CLEAR, 0, [], [];
    }

    ghost predicate Valid()
      reads this
    {
      && Disciplined(log)
      && boots == Boots(log, false) + Boots(log, true)
    }

    method Note(e: Event)
      requires Disciplined(log)
      requires e.Boot? ==> !Powered(log) && (!e.diag ==> log != [] && log[|log| - 1] == Clear)
      modifies `log
      ensures log == old(log) + [e] && Disciplined(log)
      ensures Powered(log) == match e case Boot(ok, _) => ok case Gate => false case Clear => Powered(old(log))
      ensures Boots(log, false) == Boots(old(log), false) + (if e.Boot? && !e.diag then 1 else 0)
      ensures Boots(log, true) == Boots(old(log), true) + (if e.Boot? && e.diag then 1 else 0)
    {
      DisciplineGrows(log, e);
      PoweredGrows(log, e);
      BootsGrow(log, e, false);
      BootsGrow(log, e, true);
      log := log + [e];
    }

    method ClearMail()
      requires Valid()
      modifies `mail, `log
      ensures Valid() && mail == CLEAR && log == old(log) + [Clear] && Powered(log) == Powered(old(log))
      ensures Boots(log, false) == Boots(old(log), false) && Boots(log, true) == Boots(old(log), true)
    {
      hide Disciplined, Powered, Boots;
      mail := CLEAR;
      Note(Clear);
    }

    /** `ccplex_powergate_cpu0`. */
    method PowerDown()
      requires Valid()
      modifies `log
      ensures Valid() && log == old(log) + [Gate] && !Powered(log)
      ensures Boots(log, false) == Boots(old(log), false) && Boots(log, true) == Boots(old(log), true)
    {
      hide Disciplined, Powered, Boots;
      Note(Gate);
    }

    /** `_cpu0_boot_checked`: a boot that fails powers the cluster down itself. */
    method BootChecked(diag: bool) returns (ok: bool)
      requires Valid() && !Powered(log) && (!diag ==> log != [] && log[|log| - 1] == Clear)
      modifies `log, `boots
      ensures Valid() && boots == old(boots) + 1 && ok == world.comesUp(old(boots))
      ensures Powered(log) == ok && old(log) < log
      ensures Boots(log, diag) == Boots(old(log), diag) + 1 && Boots(log, !diag) == Boots(old(log), !diag)
    {
      hide Disciplined, Powered, Boots;
      ok := world.comesUp(boots);
      Note(Boot(ok, diag));
      boots := boots + 1;
      if !ok {
        PowerDown();
      }
    }

    /** The wait of one boot, with CPU0 storing into the mailbox between the polls. */
    method Wait(boot: nat) returns (v: Verdict)
      requires mail == CLEAR
      modifies `mail
      ensures v == VerdictOf(world, boot) && v.polls > 0
      ensures mail == MailAt(world, boot, CLEAR, v.polls - 1)
    {
      hide PutAll, MailAt, PollsOf, Watch;
      var lastHb, lastMove, alive, i := 0, world.begun(boot), false, 0;
      ghost var polls := PollsOf(world, boot);
      while i < CEILING
        invariant i <= CEILING && Holds(world, boot, mail, i)
        invariant Watch(polls, i, CEILING - i, lastHb, lastMove, alive) == VerdictOf(world, boot)
      {
        HoldsNext(world, boot, mail, i);
        WatchStep(polls, i, CEILING - i, lastHb, lastMove, alive);
        mail := PutAll(mail, world.stores(boot, i));
        var p := Poll(SnapOf(mail), world.moved(boot, i), world.checked(boot, i));
        var over, ending;
        over, ending, lastHb, lastMove, alive := Look(p, lastHb, lastMove, alive);
        i := i + 1;
        if over {
          return Verdict(alive, ending, i);
        }
      }
      WatchEnds(polls, i, lastHb, lastMove, alive);
      v := Verdict(alive, RanOut, i);
    }

    /** After the last stall: if the configuration space hung with nothing latched, one more boot only to
        read the latch, waited for at most a second. */
    method Diagnose()
      requires Valid() && Boots(log, true) == 0
      modifies `mail, `log, `boots
      ensures Valid() && Boots(log, false) == Boots(old(log), false)
      ensures Boots(log, true) == if old(mail.stage) >= 10 && old(mail.latch) == 0 then 1 else 0
    {
      hide Disciplined, Powered, Boots, PutAll;
      if mail.stage >= CFG_RD && mail.latch == 0 {
        PowerDown();
        mail := mail.(done := false, diag := true);
        var boot := boots;
        var ok := BootChecked(true);
        if ok {
          for i := 0 to 2000
            modifies `mail
          {
            mail := PutAll(mail, world.stores(boot, i));
            if mail.done {
              break;
            }
          }
        }
        mail := mail.(diag := false);
      }
    }

    /** What the mailbox of a finished attempt says. */
    method Report() returns (outcome: Outcome)
      ensures outcome == if mail.probe == 0xFFFFFFFF || mail.witnessed != 0xA5A50000 then NotDecoding
                         else if mail.port != 1 then NoLink
                         else if mail.endpoint == 0x43EC14E4 then Enumerated else OtherDevice
    {
      var afiOk := mail.probe != 0xFFFFFFFF && mail.witnessed == 0xA5A50000;
      if !afiOk {
        return NotDecoding;
      }
      if mail.port != 1 {
        return NoLink;
      }
      var vid, did := mail.endpoint % 0x1_0000, mail.endpoint / 0x1_0000;
      outcome := if vid == 0x14E4 && did == 0x43EC then Enumerated else OtherDevice;
    }

    /** The end of the last attempt, whose boot stored `words`. */
    method Conclude(ghost words: seq<Store>, v: Verdict) returns (outcome: Outcome)
      requires Valid() && Boots(log, true) == 0 && Reflects(mail, words)
      modifies `mail, `log, `boots
      ensures Valid() && !Powered(log) && Boots(log, false) == Boots(old(log), false)
      ensures outcome != NoPower && (outcome == NeverStarted <==> !v.alive)
      ensures outcome == Hung <==> v.alive && v.ending != Finished
      ensures Reported(words, v.alive && v.ending == Finished, outcome)
      ensures Boots(log, true) == if outcome == Hung && LastWord(words, Stage) >= 10 && LastWord(words, Latch) == 0
                                  then 1 else 0
    {
      hide Disciplined, Powered, Boots, LastWord, Reported;
      if !v.alive {
        PowerDown();
        ReportsNothing(words, NeverStarted);
        return NeverStarted;
      }
      if v.ending != Finished {
        Diagnose();
        PowerDown();
        ReportsNothing(words, Hung);
        return Hung;
      }
      outcome := Report();
      ReportsWhatReflects(words, mail, outcome);
      PowerDown();
    }

    /** The whole handoff. Whatever CPU0 does: at most three boots and one diagnostic boot, none of them
        on a cluster that is up, each attempt on a cleared mailbox; and the cluster is down at the end. */
    method HandOver() returns (outcome: Outcome)
      requires log == [] && verdicts == [] && boots == 0
      modifies this
      ensures Disciplined(log) && !Powered(log)
      ensures Handled(world, log, verdicts, outcome)
    {
      hide Disciplined, Powered, Boots, VerdictOf, MailAt, Stored, LastWord, Reported, Reflects, PutAll, Handled;
      NoLog();
      ClearMail();
      for attempt := 0 to 3
        invariant Valid() && !Powered(log) && log != [] && log[|log| - 1] == Clear && mail == CLEAR
        invariant |verdicts| == attempt == boots == Boots(log, false) && Boots(log, true) == 0
        invariant AllHung(world, verdicts)
        invariant attempt < 3
      {
        var ok := BootChecked(false);
        if !ok {
          HandledWithoutPower(world, log, verdicts);
          return NoPower;
        }
        var v := Wait(attempt);
        ghost var before := verdicts;
        verdicts := verdicts + [v];
        MailIsStored(world, attempt, v.polls - 1);
        if v.alive && v.ending != Finished && attempt < 2 {
          PowerDown();
          ClearMail();
          continue;
        }
        outcome := Conclude(Stored(world, attempt, v.polls - 1), v);
        HandledBy(world, log, before, v, outcome);
        return;
      }
    }
  }

  lemma NoLog()
    ensures Disciplined([]) && !Powered([]) && Boots([], false) == 0 && Boots([], true) == 0
  {
  }
}
