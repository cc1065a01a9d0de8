/** The GPT integrity check of `probe_gpt` (probe_storage.c): the header checksum with its own
    field zeroed, and the entry-array checksum when the entries lie in the sectors that were read. */
module Gpt {
  import opened Bits
  import opened Crc32
  import opened CrcResidue
  import opened Division

  const SECTORS_BYTES := 5 * 512

  const SIGNATURE: seq<bv8> := [0x45, 0x46, 0x49, 0x20, 0x50, 0x41, 0x52, 0x54]   // "EFI PART"

  /** Judged is the only outcome that sets the health verdict; it passes when both are good. */
  datatype Outcome = NotGpt | SizeSuspicious | Judged(headerOk: bool, entriesOk: bool) {
    predicate Pass() {
      this == Judged(true, true)
    }
  }

  // ------------------------------------------------------------ the fields

  function Le32(s: seq<bv8>, at: nat): nat
    requires at + 4 <= |s|
  {
    s[at] as nat + 0x100 * s[at + 1] as nat + 0x1_0000 * s[at + 2] as nat
      + 0x100_0000 * s[at + 3] as nat
  }

  function Le64(s: seq<bv8>, at: nat): nat
    requires at + 8 <= |s|
  {
    Le32(s, at) + 0x1_0000_0000 * Le32(s, at + 4)
  }

  function StoredCrc(s: seq<bv8>, at: nat): bv32
    requires at + 4 <= |s|
  {
    Word(s[at], s[at + 1], s[at + 2], s[at + 3])
  }

  function Word(a: bv8, b: bv8, c: bv8, d: bv8): bv32 {
    (a as bv32) | ((b as bv32) << 8) | ((c as bv32) << 16) | ((d as bv32) << 24)
  }

  function HeaderSize(s: seq<bv8>): nat
    requires |s| == SECTORS_BYTES
  {
    Le32(s, 0x0C)
  }

  predicate HeaderSizeSane(s: seq<bv8>)
    requires |s| == SECTORS_BYTES
  {
    0x5C <= HeaderSize(s) <= 0x100
  }

  // ------------------------------------------- the two checksums, as specified

  /** The header bytes with the stored checksum read as zero. */
  function Zeroed(h: seq<bv8>): (z: seq<bv8>)
    requires 0x14 <= |h|
    ensures |z| == |h|
    ensures forall i :: 0 <= i < |h| ==> z[i] == if 0x10 <= i < 0x14 then 0 else h[i]
  {
    h[..0x10] + [0, 0, 0, 0] + h[0x14..]
  }

  ghost predicate HeaderGood(s: seq<bv8>)
    requires |s| == SECTORS_BYTES && HeaderSizeSane(s)
  {
    Checksum(Zeroed(s[..HeaderSize(s)])) == StoredCrc(s, 0x10)
  }

  /** Where the entry array lies, when all of it was read. */
  ghost predicate EntriesRead(s: seq<bv8>)
    requires |s| == SECTORS_BYTES
  {
    1 <= Le64(s, 0x48) <= 4 && Le32(s, 0x50) <= 128 && Le32(s, 0x54) <= 512
    && Le32(s, 0x50) * Le32(s, 0x54) <= SECTORS_BYTES - (Le64(s, 0x48) - 1) * 512
  }

  ghost function Entries(s: seq<bv8>): seq<bv8>
    requires |s| == SECTORS_BYTES && EntriesRead(s)
  {
    var off := (Le64(s, 0x48) - 1) * 512;
    s[off..off + Le32(s, 0x50) * Le32(s, 0x54)]
  }

  ghost predicate EntriesGood(s: seq<bv8>)
    requires |s| == SECTORS_BYTES && EntriesRead(s)
  {
    Checksum(Entries(s)) == StoredCrc(s, 0x58)
  }

  // --------------------------------------------------------------- the probe

  method ProbeGpt(buf: array<bv8>) returns (r: Outcome)
    requires buf.Length == SECTORS_BYTES
    ensures r.NotGpt? <==> buf[..8] != SIGNATURE
    ensures r.SizeSuspicious? <==> buf[..8] == SIGNATURE && !HeaderSizeSane(buf[..])
    ensures r.Judged? ==>
              (r.headerOk <==> HeaderGood(buf[..]))
              && (r.entriesOk <==> (EntriesRead(buf[..]) ==> EntriesGood(buf[..])))
  {
    hide Checksum, StoredCrc, Le32, Le64;
    if buf[..8] != SIGNATURE {
      return NotGpt;
    }
    var headerSize := Le32(buf[..], 0x0C);
    if headerSize < 0x5C || headerSize > 0x100 {
      return SizeSuspicious;
    }
    var headerOk := CheckHeader(buf, headerSize);
    var entriesOk := CheckEntries(buf);
    r := Judged(headerOk, entriesOk);
  }

  /** The header is copied so that the stored field can be zeroed. */
  method CheckHeader(buf: array<bv8>, headerSize: nat) returns (ok: bool)
    requires buf.Length == SECTORS_BYTES
    requires headerSize == HeaderSize(buf[..]) && HeaderSizeSane(buf[..])
    ensures ok <==> HeaderGood(buf[..])
  {
    hide Checksum, StoredCrc, Le32;
    ghost var s := buf[..];
    var stored := StoredCrc(buf[..], 0x10);
    var copy := new bv8[0x100];
    forall i | 0 <= i < headerSize {
      copy[i] := buf[i];
    }
    copy[0x10], copy[0x11], copy[0x12], copy[0x13] := 0, 0, 0, 0;
    var computed := GptCrc32(copy, 0, headerSize);
    assert copy[0..0 + headerSize] == Zeroed(s[..headerSize]);
    assert buf[..] == s;
    ok := computed == stored;
  }

  /** The fields come off the disk, so they are bounded before they are multiplied; entries that
      were not all read are not held against the header. */
  method CheckEntries(buf: array<bv8>) returns (ok: bool)
    requires buf.Length == SECTORS_BYTES
    ensures ok <==> (EntriesRead(buf[..]) ==> EntriesGood(buf[..]))
  {
    hide Checksum, StoredCrc, Le32, Le64;
    var numParts, entrySize, lba := Le32(buf[..], 0x50), Le32(buf[..], 0x54), Le64(buf[..], 0x48);
    var inWindow := 1 <= lba <= 4 && numParts <= 128 && entrySize <= 512;
    var total := if inWindow then numParts * entrySize else 0;
    var off := if inWindow then (lba - 1) * 512 else 0;
    ok := true;
    if inWindow && total <= SECTORS_BYTES - off {
      var computed := GptCrc32(buf, off, total);
      assert buf[off..off + total] == Entries(buf[..]);
      ok := computed == StoredCrc(buf[..], 0x58);
    }
  }

  // ------------------------------------------------------------- the verdict

  /** Whether the probe would report a healthy table. */
  ghost predicate Passes(s: seq<bv8>)
    requires |s| == SECTORS_BYTES
  {
    s[..8] == SIGNATURE && HeaderSizeSane(s) && HeaderGood(s) && (EntriesRead(s) ==> EntriesGood(s))
  }

  method ProbeVerdict(buf: array<bv8>) returns (pass: bool)
    requires buf.Length == SECTORS_BYTES
    ensures pass <==> Passes(buf[..])
  {
    hide HeaderGood, EntriesGood, EntriesRead;
    var r := ProbeGpt(buf);
    pass := r.Pass();
  }

  // ---------------------------------------------------------- what it accepts

  /** A number stored as the table does, low byte first. */
  predicate Holds32(s: seq<bv8>, at: nat, n: nat)
    requires at + 4 <= |s|
  {
    n < WORD && s[at] as nat == n % 0x100 && s[at + 1] as nat == n / 0x100 % 0x100
    && s[at + 2] as nat == n / 0x1_0000 % 0x100 && s[at + 3] as nat == n / 0x100_0000
  }

  lemma Le32ReadsBack(s: seq<bv8>, at: nat, n: nat)
    requires at + 4 <= |s| && Holds32(s, at, n)
    ensures Le32(s, at) == n
  {
    DivModIs(n / 0x100, n / 0x1_0000, n / 0x100 - n / 0x1_0000 * 0x100, 0x100);
    DivModIs(n / 0x1_0000, n / 0x100_0000, n / 0x1_0000 - n / 0x100_0000 * 0x100, 0x100);
  }

  /** The bytes of a number are where they were. */
  lemma Holds32Moves(s: seq<bv8>, t: seq<bv8>, at: nat, n: nat)
    requires at + 4 <= |s| && |s| == |t| && Holds32(s, at, n) && t[at..at + 4] == s[at..at + 4]
    ensures Le32(t, at) == n
  {
    hide Le32;
    var u, v := t[at..at + 4], s[at..at + 4];
    assert v[0] == s[at] && v[1] == s[at + 1] && v[2] == s[at + 2] && v[3] == s[at + 3];
    assert u[0] == t[at] && u[1] == t[at + 1] && u[2] == t[at + 2] && u[3] == t[at + 3];
    Le32ReadsBack(t, at, n);
  }

  lemma StoredReadsBack(s: seq<bv8>, at: nat, w: bv32)
    requires at + 4 <= |s| && s[at..at + 4] == LowFirst(w)
    ensures StoredCrc(s, at) == w
  {
    hide LowFirst, Word;
    var v := s[at..at + 4];
    assert v[0] == s[at] && v[1] == s[at + 1] && v[2] == s[at + 2] && v[3] == s[at + 3];
    WordOfLowFirst(w);
  }

  lemma WordOfLowFirst(w: bv32)
    ensures Word(LowFirst(w)[0], LowFirst(w)[1], LowFirst(w)[2], LowFirst(w)[3]) == w
  {
  }

  lemma HeaderInFigures(s: seq<bv8>)
    requires |s| == 2560 && 92 <= Le32(s, 12) <= 256
    ensures HeaderGood(s) <==> Checksum(s[..16] + [0, 0, 0, 0] + s[20..Le32(s, 12)]) == StoredCrc(s, 16)
  {
    hide Checksum, StoredCrc, Le32;
    var n := Le32(s, 12);
    assert s[..n][..16] == s[..16] && s[..n][20..] == s[20..n];
  }

  lemma EntriesInFigures(s: seq<bv8>, lba: nat, total: nat)
    requires |s| == 2560 && lba == Le64(s, 72) && total == Le32(s, 80) * Le32(s, 84)
    ensures EntriesRead(s) <==>
              1 <= lba <= 4 && Le32(s, 80) <= 128 && Le32(s, 84) <= 512 && total <= 2560 - (lba - 1) * 512
    ensures EntriesRead(s) ==>
              var off := (lba - 1) * 512;
              && Entries(s) == s[off..off + total]
              && (EntriesGood(s) <==> Checksum(s[off..off + total]) == StoredCrc(s, 88))
  {
    hide Checksum, StoredCrc, Le32, Le64;
  }

  /** The verdict with the fields' offsets and bounds written out. */
  lemma PassesInFigures(s: seq<bv8>)
    requires |s| == 2560
    ensures Passes(s) <==>
              && s[..8] == [0x45, 0x46, 0x49, 0x20, 0x50, 0x41, 0x52, 0x54]
              && 92 <= Le32(s, 12) <= 256
              && Checksum(s[..16] + [0, 0, 0, 0] + s[20..Le32(s, 12)]) == StoredCrc(s, 16)
              && (EntriesRead(s) ==> EntriesGood(s))
  {
    hide Checksum, StoredCrc, Le32, Le64, HeaderGood, EntriesRead, EntriesGood;
    if 92 <= Le32(s, 12) <= 256 {
      HeaderInFigures(s);
    }
  }

  /** `v` written over `s` from `at` on. */
  function Written(s: seq<bv8>, at: nat, v: seq<bv8>): (t: seq<bv8>)
    requires at + |v| <= |s|
    ensures |t| == |s|
  {
    s[..at] + v + s[at + |v|..]
  }

  lemma WrittenThere(s: seq<bv8>, at: nat, v: seq<bv8>)
    requires at + |v| <= |s|
    ensures Written(s, at, v)[at..at + |v|] == v
  {
  }

  lemma NotWritten(s: seq<bv8>, at: nat, v: seq<bv8>, from: nat, to: nat)
    requires at + |v| <= |s| && from <= to <= |s| && (to <= at || at + |v| <= from)
    ensures Written(s, at, v)[from..to] == s[from..to]
  {
  }

  /** A table written by the rules: the sum of the entries goes to 88, and then the sum of the header, its
      own field zero, to 16. */
  function Sealed(s: seq<bv8>, size: nat, off: nat, total: nat): (t: seq<bv8>)
    requires |s| == 2560 && 92 <= size <= 256 && off + total <= 2560
    ensures |t| == 2560
  {
    var u := Written(s, 88, LowFirst(Checksum(s[off..off + total])));
    Written(u, 16, LowFirst(Checksum(u[..16] + [0, 0, 0, 0] + u[20..size])))
  }

  /** It is healthy: `size` bytes of header, `count` entries of `entry` bytes from sector `lba` on. */
  lemma SealedPasses(s: seq<bv8>, size: nat, lba: nat, count: nat, entry: nat, total: nat)
    requires |s| == 2560 && s[..8] == [0x45, 0x46, 0x49, 0x20, 0x50, 0x41, 0x52, 0x54]
    requires 92 <= size <= 256 && Holds32(s, 12, size)
    requires 2 <= lba <= 4 && Holds32(s, 72, lba) && Holds32(s, 76, 0)
    requires count <= 128 && Holds32(s, 80, count) && entry <= 512 && Holds32(s, 84, entry)
    requires total == count * entry <= 2560 - (lba - 1) * 512
    ensures var t := Sealed(s, size, (lba - 1) * 512, total);
            && Passes(t) && EntriesRead(t) && Entries(t) == s[(lba - 1) * 512..(lba - 1) * 512 + total]
  {
    hide Checksum, StoredCrc, Le32, Holds32, Passes, LowFirst, Sealed, EntriesGood, EntriesRead, Entries;
    var off := (lba - 1) * 512;
    var t := Sealed(s, size, off, total);
    SealedKeeps(s, size, off, total, 0, 8);
    SealedKeeps(s, size, off, total, 12, 16);
    SealedKeeps(s, size, off, total, 72, 76);
    SealedKeeps(s, size, off, total, 76, 80);
    SealedKeeps(s, size, off, total, 80, 84);
    SealedKeeps(s, size, off, total, 84, 88);
    SealedKeeps(s, size, off, total, off, off + total);
    SealedSums(s, size, off, total);
    Holds32Moves(s, t, 12, size);
    Holds32Moves(s, t, 72, lba);
    Holds32Moves(s, t, 76, 0);
    Holds32Moves(s, t, 80, count);
    Holds32Moves(s, t, 84, entry);
    StoredReadsBack(t, 16, Checksum(t[..16] + [0, 0, 0, 0] + t[20..size]));
    StoredReadsBack(t, 88, Checksum(t[off..off + total]));
    EntriesInFigures(t, lba, total);
    PassesInFigures(t);
  }

  lemma SealedKeeps(s: seq<bv8>, size: nat, off: nat, total: nat, from: nat, to: nat)
    requires |s| == 2560 && 92 <= size <= 256 && off + total <= 2560
    requires from <= to <= 16 || 20 <= from <= to <= 88 || 92 <= from <= to <= 2560
    ensures Sealed(s, size, off, total)[from..to] == s[from..to]
  {
    hide Checksum, LowFirst, Written;
    var e := LowFirst(Checksum(s[off..off + total]));
    var u := Written(s, 88, e);
    NotWritten(s, 88, e, from, to);
    NotWritten(u, 16, LowFirst(Checksum(u[..16] + [0, 0, 0, 0] + u[20..size])), from, to);
  }

  lemma SealedSums(s: seq<bv8>, size: nat, off: nat, total: nat)
    requires |s| == 2560 && 92 <= size <= 256 && off + total <= 2560
    ensures var t := Sealed(s, size, off, total);
            && t[16..20] == LowFirst(Checksum(t[..16] + [0, 0, 0, 0] + t[20..size]))
            && t[88..92] == LowFirst(Checksum(s[off..off + total]))
  {
    hide Checksum, LowFirst, Written;
    var e := LowFirst(Checksum(s[off..off + total]));
    var u := Written(s, 88, e);
    var h := LowFirst(Checksum(u[..16] + [0, 0, 0, 0] + u[20..size]));
    WrittenThere(s, 88, e);
    WrittenThere(u, 16, h);
    NotWritten(u, 16, h, 88, 92);
    NotWritten(u, 16, h, 20, size);
    NotWritten(u, 16, h, 0, 16);
    assert Written(u, 16, h)[0..16] == Written(u, 16, h)[..16] && u[0..16] == u[..16];
  }

  // ---------------------------------------------------------- what it rejects

  /** A healthy table stops passing when at most four consecutive bytes of the header change,
      unless they touch the checksum field or the size that says how much is summed. The fields
      that place the entry array are covered too, whatever they turn into. */
  lemma HeaderCorruptionFails(s: seq<bv8>, t: seq<bv8>, at: nat)
    requires |s| == |t| == SECTORS_BYTES && Passes(s)
    requires HeaderSize(s) == HeaderSize(t) && s[0x10..0x14] == t[0x10..0x14]
    requires FourBytesFrom(s[..HeaderSize(s)], t[..HeaderSize(s)], at)
    ensures !Passes(t)
  {
    hide Checksum, StoredCrc, Le32, EntriesRead, EntriesGood;
    var n := HeaderSize(s);
    var a, b := Zeroed(s[..n]), Zeroed(t[..n]);
    var d :| 0 <= d < n && s[..n][d] != t[..n][d];
    assert forall i :: 0x10 <= i < 0x14 ==> s[i] == s[0x10..0x14][i - 0x10] && t[i] == s[i];
    assert a[d] == s[d] && b[d] == t[d];
    FourByteBurstDetected(a, b, at);
    StoredInjective(s, t, 0x10);
  }

  /** A changed checksum field alone also fails: the sum is taken with the field read as zero. */
  lemma StoredChecksumCorruptionFails(s: seq<bv8>, t: seq<bv8>)
    requires |s| == |t| == SECTORS_BYTES && Passes(s)
    requires s[..0x10] == t[..0x10] && s[0x14..] == t[0x14..] && s != t
    ensures !Passes(t)
  {
    hide Checksum, StoredCrc, Le32, EntriesRead, EntriesGood;
    assert s[0x10..0x14] != t[0x10..0x14] by {
      assert s == s[..0x10] + s[0x10..0x14] + s[0x14..] && t == t[..0x10] + t[0x10..0x14] + t[0x14..];
    }
    StoredInjective(s, t, 0x10);
    SameSize(s, t);
    var n := HeaderSize(s);
    assert Zeroed(s[..n]) == Zeroed(t[..n]) by {
      forall i | 0 <= i < n
        ensures Zeroed(s[..n])[i] == Zeroed(t[..n])[i]
      {
        if i < 0x10 {
          assert s[..0x10][i] == t[..0x10][i];
        } else if 0x14 <= i {
          assert s[0x14..][i - 0x14] == t[0x14..][i - 0x14];
        }
      }
    }
  }

  /** With the header sector intact, at most four consecutive changed bytes of the entry array are
      always noticed. */
  lemma EntryCorruptionFails(s: seq<bv8>, t: seq<bv8>, at: nat)
    requires |s| == |t| == SECTORS_BYTES && Passes(s) && EntriesRead(s)
    requires s[..0x5C] == t[..0x5C]
    requires EntriesRead(t) ==> FourBytesFrom(Entries(s), Entries(t), at)
    ensures !Passes(t)
  {
    hide Checksum, StoredCrc, Le32, HeaderGood;
    assert forall i :: 0 <= i < 0x5C ==> s[i] == s[..0x5C][i] && t[i] == s[i];
    SameLe(s, t, 0x48);
    SameLe(s, t, 0x4C);
    SameLe(s, t, 0x50);
    SameLe(s, t, 0x54);
    StoredInjective(s, t, 0x58);
    FourByteBurstDetected(Entries(s), Entries(t), at);
  }

  lemma SameLe(s: seq<bv8>, t: seq<bv8>, at: nat)
    requires at + 4 <= |s| && |s| == |t| && forall i :: at <= i < at + 4 ==> s[i] == t[i]
    ensures Le32(s, at) == Le32(t, at)
  {
  }

  lemma SameSize(s: seq<bv8>, t: seq<bv8>)
    requires |s| == |t| == SECTORS_BYTES && s[..0x10] == t[..0x10]
    ensures HeaderSize(s) == HeaderSize(t)
  {
    hide Le32;
    assert forall i :: 0x0C <= i < 0x10 ==> s[i] == s[..0x10][i] && t[i] == t[..0x10][i];
    SameLe(s, t, 0x0C);
  }

  lemma StoredInjective(s: seq<bv8>, t: seq<bv8>, at: nat)
    requires at + 4 <= |s| && |s| == |t|
    ensures StoredCrc(s, at) == StoredCrc(t, at) <==> s[at..at + 4] == t[at..at + 4]
  {
    hide Word;
    assert forall i :: at <= i < at + 4 ==> s[at..at + 4][i - at] == s[i] && t[at..at + 4][i - at] == t[i];
    WordInjective(s[at], s[at + 1], s[at + 2], s[at + 3], t[at], t[at + 1], t[at + 2], t[at + 3]);
  }

  lemma WordInjective(a: bv8, b: bv8, c: bv8, d: bv8, e: bv8, f: bv8, g: bv8, h: bv8)
    ensures Word(a, b, c, d) == Word(e, f, g, h) <==> a == e && b == f && c == g && d == h
  {
    hide Word;
    WordBytes(a, b, c, d);
    WordBytes(e, f, g, h);
  }

  lemma WordBytes(a: bv8, b: bv8, c: bv8, d: bv8)
    ensures (Word(a, b, c, d) & 0xFF) as bv8 == a
    ensures ((Word(a, b, c, d) >> 8) & 0xFF) as bv8 == b
    ensures ((Word(a, b, c, d) >> 16) & 0xFF) as bv8 == c
    ensures ((Word(a, b, c, d) >> 24) & 0xFF) as bv8 == d
  {
  }
}
