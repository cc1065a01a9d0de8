/** The length-driven HCI reader `bt_wait_event` (probe_bt.c): the UART transport of the Bluetooth
    Core specification (Vol 4 Part A, section 2), with the vendor packets that have no length.

    The line is the bytes that arrive before the reads time out; a read past them is the time-out. */
module H4Reader {
  import opened Bits

  const EVENT: Byte := 0x04
  const LM_DIAG: Byte := 0x07
  const DIAG_LEN := 63

  predicate ZeroLength(c: Byte) {
    c == 0x00 || c == 0x31 || c == 0x34
  }

  // ------------------------------------------------------------- the packets

  /** What may stand in front of an event: vendor packets, or a byte no packet starts with. */
  datatype Packet = Vendor(kind: Byte) | Diag(payload: seq<Byte>) | Stray(byte: Byte) {
    predicate Valid() {
      match this
      case Vendor(kind) => ZeroLength(kind)
      case Diag(payload) => |payload| == DIAG_LEN
      case Stray(b) => !ZeroLength(b) && b != LM_DIAG && b != EVENT
    }

    function Bytes(): seq<Byte> {
      match this
      case Vendor(kind) => [kind]
      case Diag(payload) => [LM_DIAG] + payload
      case Stray(b) => [b]
    }
  }

  /** The packets in bytes: a vendor packet is 00, 31 or 34 alone, a diagnostic one is 07 and 63 bytes, an event
      begins with 04, and any other byte is passed over alone. */
  lemma PacketsInBytes(c: Byte, payload: seq<Byte>, e: Event)
    requires |e.params| < 256
    ensures Vendor(c).Valid() <==> c == 0x00 || c == 0x31 || c == 0x34
    ensures Stray(c).Valid() <==> c != 0x00 && c != 0x31 && c != 0x34 && c != 0x07 && c != 0x04
    ensures Vendor(c).Bytes() == [c] == Stray(c).Bytes()
    ensures Diag(payload).Valid() <==> |payload| == 63
    ensures Diag(payload).Bytes() == [0x07] + payload
    ensures e.Bytes() == [0x04, e.code, |e.params|] + e.params
  {
  }

  function Encode(ps: seq<Packet>): seq<Byte> {
    if ps == [] then [] else ps[0].Bytes() + Encode(ps[1..])
  }

  ghost predicate AllValid(ps: seq<Packet>) {
    forall p :: p in ps ==> p.Valid()
  }

  datatype Event = Event(code: Byte, params: seq<Byte>) {
    function Bytes(): seq<Byte>
      requires |params| < 256
    {
      [EVENT, code, |params|] + params
    }
  }

  function Cut(s: seq<Byte>, max: nat): seq<Byte> {
    if |s| <= max then s else s[..max]
  }

  // ------------------------------------------------------------ the reader

  /** What a call finds on the line. `used` counts the bytes taken; a time-out has taken them all. */
  datatype Scan = TimedOut | Found(code: Byte, plen: Byte, params: seq<Byte>, used: nat) {
    function Later(k: nat): Scan {
      if TimedOut? then this else this.(used := used + k)
    }
  }

  function ScanLine(line: seq<Byte>): (r: Scan)
    ensures r.Found? ==> r.used <= |line|
    decreases |line|
  {
    if line == [] then TimedOut
    else if line[0] == LM_DIAG then
      if |line| < 1 + DIAG_LEN then TimedOut else ScanLine(line[1 + DIAG_LEN..]).Later(1 + DIAG_LEN)
    else if line[0] == EVENT then
      if |line| < 3 then TimedOut
      else
        var got := if line[2] <= |line| - 3 then line[2] else |line| - 3;
        Found(line[1], line[2], line[3..3 + got], 3 + got)
    else ScanLine(line[1..]).Later(1)
  }

  function Used(line: seq<Byte>): (n: nat)
    ensures n <= |line|
  {
    var r := ScanLine(line);
    if r.Found? then r.used else |line|
  }

  /** What the buffer holds: below three bytes the header is left out, not cut. */
  function Output(r: Scan, max: nat): seq<Byte> {
    if r.TimedOut? then []
    else Cut((if max >= 3 then [EVENT, r.code, r.plen] else []) + r.params, max)
  }

  /** The line position and the raw log, which the reader advances together. */
  class Line {
    const bytes: seq<Byte>
    var at: nat
    const raw: array<Byte>
    var rawN: nat

    constructor (bytes: seq<Byte>, raw: array<Byte>)
      ensures this.bytes == bytes && this.raw == raw && at == 0 && rawN == 0
    {
      this.bytes, this.raw, at, rawN := bytes, raw, 0, 0;
    }

    ghost predicate Valid()
      reads this
    {
      at <= |bytes| && rawN <= raw.Length
    }

    /** Everything taken so far, as far as the log has room. */
    ghost predicate Logged(start: nat, log: seq<Byte>)
      requires Valid()
      reads this, raw
    {
      start <= at && |log| <= raw.Length && raw[..rawN] == Cut(log + bytes[start..at], raw.Length)
    }

    /** `bt_getb` and the log line after it: minus one at the time-out. */
    method Get(ghost start: nat, ghost log: seq<Byte>) returns (c: int)
      requires Valid() && Logged(start, log)
      modifies this`at, this`rawN, raw
      ensures Valid() && Logged(start, log)
      ensures old(at) == |bytes| ==> c == -1 && at == old(at)
      ensures old(at) < |bytes| ==> c == bytes[old(at)] && at == old(at) + 1
    {
      if at == |bytes| {
        return -1;
      }
      ghost var seen := log + bytes[start..at];
      c := bytes[at];
      if rawN < raw.Length {
        raw[rawN] := c;
        rawN := rawN + 1;
      }
      at := at + 1;
      assert log + bytes[start..at] == seen + [bytes[at - 1]];
    }

    /** `bt_wait_event`. */
    method WaitEvent(ev: array<Byte>) returns (n: nat)
      requires Valid() && ev != raw
      modifies this`at, this`rawN, raw, ev
      ensures Valid()
      ensures n <= ev.Length && ev[..n] == Output(ScanLine(old(bytes[at..])), ev.Length)
      ensures at == old(at) + Used(old(bytes[at..]))
      ensures raw[..rawN] == Cut(old(raw[..rawN]) + bytes[old(at)..at], raw.Length)
    {
      hide ScanLine, Output, Used;
      ghost var start, log, line := at, raw[..rawN], bytes[at..];
      assert bytes[start..at] == [] && log + [] == log;
      while true
        invariant Valid() && Logged(start, log)
        invariant Output(ScanLine(bytes[at..]), ev.Length) == Output(ScanLine(line), ev.Length)
        invariant at + Used(bytes[at..]) == start + Used(line)
        decreases |bytes| - at
      {
        ghost var here := at;
        LineEnds(bytes, here, ev.Length);
        var c := Get(start, log);
        if c < 0 {
          return 0;
        }
        if c == 0x00 || c == 0x31 || c == 0x34 {
          SkipsOne(bytes, here, ev.Length);
          continue;
        }
        if c == 0x07 {
          for i := 0 to 63
            invariant Valid() && Logged(start, log) && at == here + 1 + i
          {
            var d := Get(start, log);
            if d < 0 {
              return 0;
            }
          }
          SkipsDiag(bytes, here, ev.Length);
          continue;
        }
        if c == 0x04 {
          n := ReadEvent(ev, start, log, here);
          return;
        }
        SkipsOne(bytes, here, ev.Length);
      }
    }

    /** The event branch: the two header bytes, then as many as the second one says. */
    method ReadEvent(ev: array<Byte>, ghost start: nat, ghost log: seq<Byte>, ghost here: nat) returns (n: nat)
      requires Valid() && Logged(start, log) && ev != raw
      requires at == here + 1 && bytes[here] == EVENT
      modifies this`at, this`rawN, raw, ev
      ensures Valid() && Logged(start, log)
      ensures n <= ev.Length && ev[..n] == Output(ScanLine(bytes[here..]), ev.Length)
      ensures at == here + Used(bytes[here..])
    {
      hide ScanLine, Output, Used;
      EventScan(bytes, here, ev.Length);
      var code := Get(start, log);
      if code < 0 {
        return 0;
      }
      var plen := Get(start, log);
      if plen < 0 {
        return 0;
      }
      n := 0;
      if ev.Length >= 3 {
        ev[0], ev[1], ev[2] := 0x04, code, plen;
        n := 3;
        assert ev[..n] == [EVENT, code, plen];
      }
      n := ReadParams(ev, n, plen, start, log);
    }

    /** The parameters: every one is taken off the line, those that fit are kept. */
    method ReadParams(ev: array<Byte>, n0: nat, plen: nat, ghost start: nat, ghost log: seq<Byte>)
      returns (n: nat)
      requires Valid() && Logged(start, log) && ev != raw && n0 <= ev.Length
      modifies this`at, this`rawN, raw, ev
      ensures Valid() && Logged(start, log)
      ensures at == if old(at) + plen <= |bytes| then old(at) + plen else |bytes|
      ensures n <= ev.Length && ev[..n] == Cut(old(ev[..n0]) + bytes[old(at)..at], ev.Length)
    {
      hide Cut, Logged;
      n := n0;
      ghost var from, kept := at, ev[..n0];
      assert bytes[from..from] == [] && kept + [] == kept;
      CutStart(kept, ev.Length);
      for i := 0 to plen
        invariant Valid() && Logged(start, log) && at == from + i
        invariant n <= ev.Length && ev[..n] == Cut(kept + bytes[from..at], ev.Length)
      {
        var d := Get(start, log);
        if d < 0 {
          break;
        }
        assert bytes[from..at] == bytes[from..at - 1] + [bytes[at - 1]];
        assert kept + bytes[from..at] == (kept + bytes[from..at - 1]) + [bytes[at - 1]];
        CutStep(kept + bytes[from..at - 1], bytes[at - 1], ev.Length);
        if n < ev.Length {
          ev[n] := d;
          n := n + 1;
        }
      }
    }
  }

  lemma CutStart(s: seq<Byte>, max: nat)
    requires |s| <= max
    ensures Cut(s, max) == s
  {
  }

  lemma CutStep(s: seq<Byte>, c: Byte, max: nat)
    ensures |Cut(s, max)| <= max
    ensures Cut(s + [c], max) == if |Cut(s, max)| < max then Cut(s, max) + [c] else Cut(s, max)
  {
  }

  /** What the scan makes of an event that starts at `here`. */
  lemma EventScan(bytes: seq<Byte>, here: nat, max: nat)
    requires here < |bytes| && bytes[here] == EVENT
    ensures here + 3 > |bytes| ==> Output(ScanLine(bytes[here..]), max) == [] && Used(bytes[here..]) == |bytes| - here
    ensures here + 3 <= |bytes| ==>
              var plen := bytes[here + 2];
              var end := if here + 3 + plen <= |bytes| then here + 3 + plen else |bytes|;
              Output(ScanLine(bytes[here..]), max)
                == Cut((if max >= 3 then [EVENT, bytes[here + 1], plen] else []) + bytes[here + 3..end], max)
              && here + Used(bytes[here..]) == end
  {
    if here + 3 <= |bytes| {
      var plen := bytes[here + 2];
      var end := if here + 3 + plen <= |bytes| then here + 3 + plen else |bytes|;
      assert bytes[here..][3..end - here] == bytes[here + 3..end];
    }
  }

  /** The time-outs: nothing more on the line, or a diagnostic packet that is not all there. */
  lemma LineEnds(bytes: seq<Byte>, here: nat, max: nat)
    requires here <= |bytes|
    ensures here == |bytes| || (bytes[here] == LM_DIAG && here + 1 + DIAG_LEN > |bytes|) ==>
              Output(ScanLine(bytes[here..]), max) == [] && here + Used(bytes[here..]) == |bytes|
  {
  }

  lemma SkipsOne(bytes: seq<Byte>, here: nat, max: nat)
    requires here < |bytes| && bytes[here] != LM_DIAG && bytes[here] != EVENT
    ensures Output(ScanLine(bytes[here..]), max) == Output(ScanLine(bytes[here + 1..]), max)
    ensures Used(bytes[here..]) == 1 + Used(bytes[here + 1..])
  {
    assert bytes[here..][1..] == bytes[here + 1..];
  }

  lemma SkipsDiag(bytes: seq<Byte>, here: nat, max: nat)
    requires here + 1 + DIAG_LEN <= |bytes| && bytes[here] == LM_DIAG
    ensures Output(ScanLine(bytes[here..]), max) == Output(ScanLine(bytes[here + 1 + DIAG_LEN..]), max)
    ensures Used(bytes[here..]) == 1 + DIAG_LEN + Used(bytes[here + 1 + DIAG_LEN..])
  {
    assert bytes[here..][1 + DIAG_LEN..] == bytes[here + 1 + DIAG_LEN..];
  }

  // -------------------------------------------------------------- the framing

  lemma PacketIsSkipped(p: Packet, rest: seq<Byte>)
    requires p.Valid()
    ensures ScanLine(p.Bytes() + rest) == ScanLine(rest).Later(|p.Bytes()|)
  {
    assert (p.Bytes() + rest)[|p.Bytes()|..] == rest;
  }

  lemma EventIsFound(e: Event, tail: seq<Byte>)
    requires |e.params| < 256
    ensures ScanLine(e.Bytes() + tail) == Found(e.code, |e.params|, e.params, |e.Bytes()|)
  {
    assert (e.Bytes() + tail)[3..3 + |e.params|] == e.params;
  }

  lemma CutTimesOut(rest: seq<Byte>)
    requires Incomplete(rest)
    ensures ScanLine(rest) == TimedOut
  {
  }

  lemma EncodeFront(ps: seq<Packet>, t: seq<Byte>)
    requires ps != []
    ensures Encode(ps) + t == ps[0].Bytes() + (Encode(ps[1..]) + t)
    ensures |Encode(ps)| == |ps[0].Bytes()| + |Encode(ps[1..])|
  {
  }

  /** Whatever stands behind a run of packets and stray bytes is what the reader finds. */
  lemma {:induction false} PacketsAreSkipped(ps: seq<Packet>, t: seq<Byte>)
    requires AllValid(ps)
    ensures ScanLine(Encode(ps) + t) == ScanLine(t).Later(|Encode(ps)|)
    decreases |ps|
  {
    hide ScanLine;
    if ps == [] {
      assert Encode(ps) + t == t;
    } else {
      EncodeFront(ps, t);
      PacketIsSkipped(ps[0], Encode(ps[1..]) + t);
      PacketsAreSkipped(ps[1..], t);
    }
  }

  /** Behind any run of vendor packets and stray bytes, whatever their payloads hold, the reader
      finds exactly the event and takes no byte past it. */
  lemma FindsTheEvent(ps: seq<Packet>, e: Event, tail: seq<Byte>)
    requires AllValid(ps) && |e.params| < 256
    ensures ScanLine(Encode(ps) + e.Bytes() + tail)
         == Found(e.code, |e.params|, e.params, |Encode(ps)| + |e.Bytes()|)
  {
    hide ScanLine, Encode;
    PacketsAreSkipped(ps, e.Bytes() + tail);
    EventIsFound(e, tail);
    assert Encode(ps) + e.Bytes() + tail == Encode(ps) + (e.Bytes() + tail);
  }

  /** With nothing complete behind the packets the call times out, having taken everything. */
  lemma TimesOutBehind(ps: seq<Packet>, rest: seq<Byte>)
    requires AllValid(ps) && Incomplete(rest)
    ensures ScanLine(Encode(ps) + rest) == TimedOut
  {
    hide ScanLine, Encode;
    PacketsAreSkipped(ps, rest);
    CutTimesOut(rest);
  }

  /** A packet cut short by the time-out, or nothing at all. */
  predicate Incomplete(rest: seq<Byte>) {
    rest == [] || (rest[0] == LM_DIAG && |rest| < 1 + DIAG_LEN) || (rest[0] == EVENT && |rest| < 3)
  }

  lemma NothingEncoded(line: seq<Byte>)
    ensures Encode([]) + line == line
  {
  }

  /** Every line is one of the two: packets and stray bytes, then an event header or a cut. */
  lemma {:induction false} EveryLineSplits(line: seq<Byte>) returns (ps: seq<Packet>, rest: seq<Byte>)
    ensures AllValid(ps) && line == Encode(ps) + rest
    ensures Incomplete(rest) || (|rest| >= 3 && rest[0] == EVENT)
    decreases |line|
  {
    hide Encode;
    if Incomplete(line) || line[0] == EVENT {
      NothingEncoded(line);
      ps, rest := [], line;
    } else {
      var p := if line[0] == LM_DIAG then Diag(line[1..1 + DIAG_LEN])
               else if ZeroLength(line[0]) then Vendor(line[0]) else Stray(line[0]);
      var k := |p.Bytes()|;
      var later;
      later, rest := EveryLineSplits(line[k..]);
      ps := [p] + later;
      assert ps[1..] == later;
      EncodeFront(ps, rest);
      assert line[..k] == p.Bytes();
      assert line == line[..k] + line[k..];
    }
  }

  /** The reader returns the event cut to the buffer exactly when the buffer is empty or holds the header,
      or the parameters happen to begin as the header does. A buffer of one or two bytes gets the first
      parameters. */
  lemma OutputIsTheEventCut(e: Event, used: nat, max: nat)
    requires |e.params| < 256
    ensures var out := Output(Found(e.code, |e.params|, e.params, used), max);
            && (out == Cut(e.Bytes(), max)
                <==> max == 0 || max >= 3
                     || (|e.params| >= max && e.params[0] == EVENT && (max == 2 ==> e.params[1] == e.code)))
            && (1 <= max <= 2 ==> out == Cut(e.params, max))
  {
    var out, cut := Output(Found(e.code, |e.params|, e.params, used), max), Cut(e.Bytes(), max);
    assert [] + e.params == e.params;
    if 1 <= max <= 2 {
      assert out == Cut(e.params, max) && cut == [EVENT, e.code][..max];
      assert |e.params| >= max ==> out[0] == e.params[0] && (max == 2 ==> out[1] == e.params[1]);
      assert cut[0] == EVENT && (max == 2 ==> cut[1] == e.code);
    }
  }

  /** A one-byte buffer and an event with a parameter: the byte returned is not the event's first. */
  lemma ShortBufferLosesTheHeader()
    ensures var e := Event(0x0E, [0x01]);
            Output(Found(e.code, 1, e.params, 4), 1) == [0x01] && Cut(e.Bytes(), 1) == [EVENT]
  {
  }

  // -------------------------------------------------------- the reset verdict

  /** `bt_is_reset_cc`, on the n bytes the reader returned. */
  predicate IsResetCc(ev: seq<Byte>) {
    |ev| >= 7 && ev[1] == 0x0E && ev[4] == 0x03 && ev[5] == 0x0C && ev[6] == 0x00
  }

  /** In a buffer of at least seven bytes, the verdict is exactly that the event is a Command Complete
      (code 0E) for HCI_Reset (opcode 0C03) with status zero, and that it all arrived. */
  lemma ResetVerdict(r: Scan, max: nat)
    requires r.Found? && max >= 7
    ensures IsResetCc(Output(r, max))
       <==> r.code == 0x0E && |r.params| >= 4 && r.params[1..4] == [0x03, 0x0C, 0x00]
  {
    var out := [EVENT, r.code, r.plen] + r.params;
    if |r.params| >= 4 {
      assert out[4] == r.params[1] && out[5] == r.params[2] && out[6] == r.params[3];
      assert r.params[1..4] == [r.params[1], r.params[2], r.params[3]];
    }
  }
}
