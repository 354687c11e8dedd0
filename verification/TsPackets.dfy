/** MPEG-TS packets: the shared sync scan, the two clock readers, and the
    reference packet writer they are checked against. */
module TsPackets {
  import opened Common
  import opened Bits

  const PACKET_SIZE: nat := 188
  const SYNC_BYTE: Byte := 0x47

  type Bytes = seq<Byte>

  /** One packet: 188 bytes that begin with the sync byte. */
  type Packet = p: Bytes | |p| == PACKET_SIZE && p[0] == SYNC_BYTE
    witness [SYNC_BYTE] + seq(PACKET_SIZE - 1, _ => 0)

  /** Byte i of a packet, as a number. */
  function At(pkt: Packet, i: nat): (r: int)
    requires i < PACKET_SIZE
    ensures 0 <= r < 256
  {
    pkt[i]
  }

  /** Index of the first b in s, or -1. */
  function IndexByte(s: Bytes, b: Byte): (r: int)
    ensures -1 <= r < |s|
    ensures r >= 0 ==> s[r] == b
    ensures forall k :: 0 <= k < (if r < 0 then |s| else r) ==> s[k] != b
  {
    if s == [] then -1
    else if s[0] == b then 0
    else
      var r := IndexByte(s[1..], b);
      if r < 0 then -1 else r + 1
  }

  // ---- the sync scan ----

  /** The packets that both the segmenter and the clock scanner accept from
      data, scanning from off: skip to the next sync byte, take 188 bytes. */
  function SyncScan(data: Bytes, off: nat): seq<Packet>
    decreases |data| - off
  {
    if off + PACKET_SIZE > |data| then []
    else if data[off] == SYNC_BYTE then
      [data[off..off + PACKET_SIZE]] + SyncScan(data, off + PACKET_SIZE)
    else
      var next := IndexByte(data[off + 1..], SYNC_BYTE);
      if next < 0 then [] else SyncScan(data, off + next + 1)
  }

  /** One turn of the scan: take a packet, skip to the next sync byte, or stop. */
  lemma ScanTurn(data: Bytes, off: nat)
    ensures off + PACKET_SIZE > |data| ==> SyncScan(data, off) == []
    ensures off + PACKET_SIZE <= |data| && data[off] == SYNC_BYTE ==>
      SyncScan(data, off) == [data[off..off + PACKET_SIZE]] + SyncScan(data, off + PACKET_SIZE)
    ensures off + PACKET_SIZE <= |data| && data[off] != SYNC_BYTE ==>
      var next := IndexByte(data[off + 1..], SYNC_BYTE);
      SyncScan(data, off) == if next < 0 then [] else SyncScan(data, off + next + 1)
  {
  }

  /** Where packets lie in data from off on: each begins at a sync byte, they do not
      overlap, what is skipped before each has no sync byte, and after the last
      there is none with a whole packet behind it. */
  ghost predicate Lie(data: Bytes, off: nat, at: seq<nat>, ps: seq<Packet>) {
    Placed(data, off, at, ps) && NoneBetween(data, off, at)
  }

  ghost predicate Placed(data: Bytes, off: nat, at: seq<nat>, ps: seq<Packet>) {
    |at| == |ps|
    && (forall k :: 0 <= k < |at| ==> off <= at[k] && at[k] + 188 <= |data| && ps[k] == data[at[k]..at[k] + 188])
    && (forall k :: 0 < k < |at| ==> at[k - 1] + 188 <= at[k])
  }

  ghost predicate NoneBetween(data: Bytes, off: nat, at: seq<nat>) {
    && (forall k, j :: 0 <= k < |at| && EndBefore(off, at, k) <= j < at[k] ==> j < |data| && data[j] != 0x47)
    && (forall j :: EndBefore(off, at, |at|) <= j && j + 188 <= |data| ==> data[j] != 0x47)
  }

  /** Where the packet before the k-th ends, or off. */
  function EndBefore(off: nat, at: seq<nat>, k: nat): nat
    requires k <= |at|
  {
    if k == 0 then off else at[k - 1] + 188
  }

  /** The scan takes exactly the packets that lie so. */
  lemma {:induction false} ScanIsGreedy(data: Bytes, off: nat) returns (at: seq<nat>)
    ensures Lie(data, off, at, SyncScan(data, off))
    decreases |data| - off
  {
    hide SyncScan, Lie;
    ScanTurn(data, off);
    if off + PACKET_SIZE > |data| {
      at := [];
      LieNowhere(data, off);
    } else if data[off] == SYNC_BYTE {
      var rest := ScanIsGreedy(data, off + PACKET_SIZE);
      at := [off] + rest;
      LieFirst(data, off, rest, SyncScan(data, off + PACKET_SIZE));
    } else {
      var next := IndexByte(data[off + 1..], SYNC_BYTE);
      SkippedAll(data, off);
      if next < 0 {
        at := [];
        LieNowhere(data, off);
      } else {
        at := ScanIsGreedy(data, off + next + 1);
        LieLater(data, off, off + next + 1, at, SyncScan(data, off + next + 1));
      }
    }
  }

  lemma SkippedAll(data: Bytes, off: nat)
    requires off < |data| && data[off] != SYNC_BYTE
    ensures var next := IndexByte(data[off + 1..], SYNC_BYTE);
      forall j :: off <= j < (if next < 0 then |data| else off + next + 1) ==> data[j] != SYNC_BYTE
  {
    forall j | off < j < |data| ensures data[off + 1..][j - off - 1] == data[j] {
    }
  }

  lemma LieNowhere(data: Bytes, off: nat)
    requires off + 188 > |data| || forall j :: off <= j < |data| ==> data[j] != 0x47
    ensures Lie(data, off, [], [])
  {
  }

  lemma LieFirst(data: Bytes, off: nat, at: seq<nat>, ps: seq<Packet>)
    requires off + 188 <= |data| && data[off] == 0x47 && Lie(data, off + 188, at, ps)
    ensures Lie(data, off, [off] + at, [data[off..off + 188]] + ps)
  {
    hide Placed, NoneBetween;
    PlacedFirst(data, off, at, ps);
    GapsFirst(data, off, at, ps);
  }

  lemma PlacedFirst(data: Bytes, off: nat, at: seq<nat>, ps: seq<Packet>)
    requires off + 188 <= |data| && data[off] == 0x47 && Placed(data, off + 188, at, ps)
    ensures Placed(data, off, [off] + at, [data[off..off + 188]] + ps)
  {
    var first: Packet := data[off..off + 188];
    var all, qs := [off] + at, [first] + ps;
    forall k | 0 <= k < |all| ensures off <= all[k] && all[k] + 188 <= |data| && qs[k] == data[all[k]..all[k] + 188] {
      if k > 0 {
        assert all[k] == at[k - 1] && qs[k] == ps[k - 1];
      }
    }
  }

  lemma GapsFirst(data: Bytes, off: nat, at: seq<nat>, ps: seq<Packet>)
    requires off + 188 <= |data| && Placed(data, off + 188, at, ps) && NoneBetween(data, off + 188, at)
    ensures NoneBetween(data, off, [off] + at)
  {
    var all := [off] + at;
    forall k, j | 0 <= k < |all| && EndBefore(off, all, k) <= j < all[k] ensures j < |data| && data[j] != 0x47 {
      EndShifts(off, at, k - 1);
      assert all[k] == at[k - 1];
      assert EndBefore(off + 188, at, k - 1) <= j < at[k - 1];
    }
    EndShifts(off, at, |at|);
  }

  lemma EndShifts(off: nat, at: seq<nat>, k: nat)
    requires k <= |at|
    ensures EndBefore(off, [off] + at, k + 1) == EndBefore(off + 188, at, k)
  {
  }

  lemma LieLater(data: Bytes, off: nat, from: nat, at: seq<nat>, ps: seq<Packet>)
    requires off <= from <= |data| && Lie(data, from, at, ps) && forall j :: off <= j < from ==> data[j] != 0x47
    ensures Lie(data, off, at, ps)
  {
  }

  /** A byte string made of whole packets. */
  ghost predicate Aligned(data: Bytes) {
    |data| % PACKET_SIZE == 0
    && forall k :: 0 <= k < |data| && k % PACKET_SIZE == 0 ==> data[k] == SYNC_BYTE
  }

  /** The scan loses nothing of an aligned string, and never splits a packet. */
  lemma {:induction false} ScanOfAligned(data: Bytes, off: nat)
    requires Aligned(data) && off <= |data| && off % PACKET_SIZE == 0
    ensures Flatten(SyncScan(data, off)) == data[off..]
    decreases |data| - off
  {
    if off + PACKET_SIZE <= |data| {
      assert data[off] == SYNC_BYTE;
      ScanOfAligned(data, off + PACKET_SIZE);
      assert data[off..] == data[off..off + PACKET_SIZE] + data[off + PACKET_SIZE..];
    } else {
      assert off == |data|;
    }
  }

  // ---- FindPCR ----

  datatype PcrResult = PcrResult(pcr: Option<nat>, discontinuity: bool, randomAccess: bool)

  const NO_PCR := PcrResult(None, false, false)

  /** The 33-bit program clock base; the shifted bytes occupy disjoint bits, so
      their bitwise or is their sum. */
  function PcrBase(pkt: Packet): nat {
    At(pkt, 6) * 0x200_0000 + At(pkt, 7) * 0x2_0000 + At(pkt, 8) * 0x200 + At(pkt, 9) * 2 + At(pkt, 10) / 128
  }

  /** The 9-bit extension. */
  function PcrExtension(pkt: Packet): nat {
    (At(pkt, 10) % 2) * 256 + At(pkt, 11)
  }

  /** Timing flags of one packet; the clock is in 90 kHz units. The adaptation
      field is present when bit 5 of byte 3 is set. */
  function FindPcr(pkt: Packet): PcrResult {
    if At(pkt, 3) / 32 % 2 == 0 then NO_PCR
    else if At(pkt, 4) < 1 || 5 + At(pkt, 4) > PACKET_SIZE then NO_PCR
    else
      PcrResult(
        if At(pkt, 5) / 16 % 2 == 1 && At(pkt, 4) >= 7 then Some(PcrBase(pkt)) else None,
        At(pkt, 5) / 128 == 1,
        At(pkt, 5) / 64 % 2 == 1)
  }

  // ---- ScanForLastPCR ----

  datatype Clock = Clock(ticks: nat, pid: nat)

  /** The clock of one packet in 27 MHz ticks. */
  function PacketClock(pkt: Packet): Option<Clock> {
    if At(pkt, 3) / 16 % 4 >= 2 && At(pkt, 4) >= 7 && 5 + At(pkt, 4) <= PACKET_SIZE && At(pkt, 5) / 16 % 2 == 1 then
      Some(Clock(PcrBase(pkt) * 300 + PcrExtension(pkt), (At(pkt, 1) % 32) * 256 + At(pkt, 2)))
    else None
  }

  /** The clock of the last packet of ps that carries one. */
  function LastClock(ps: seq<Packet>): Option<Clock> {
    if ps == [] then None
    else
      var last := PacketClock(ps[|ps| - 1]);
      if last.Some? then last else LastClock(ps[..|ps| - 1])
  }

  lemma LastClockEmpty()
    ensures LastClock([]) == None
  {
  }

  lemma LastClockSnoc(ps: seq<Packet>, p: Packet)
    ensures LastClock(ps + [p]) == if PacketClock(p).Some? then PacketClock(p) else LastClock(ps)
  {
    assert (ps + [p])[..|ps|] == ps;
  }

  /** What LastClock means: everything after the chosen packet has no clock. */
  lemma {:induction false} LastClockIsLast(ps: seq<Packet>)
    ensures LastClock(ps).None? <==> forall k :: 0 <= k < |ps| ==> PacketClock(ps[k]).None?
    ensures LastClock(ps).Some? ==>
      exists k :: 0 <= k < |ps| && PacketClock(ps[k]) == LastClock(ps)
        && forall l :: k < l < |ps| ==> PacketClock(ps[l]).None?
  {
    hide PacketClock;
    if ps != [] {
      var n := |ps| - 1;
      if PacketClock(ps[n]).None? {
        LastClockIsLast(ps[..n]);
        if LastClock(ps[..n]).Some? {
          var k :| 0 <= k < n && PacketClock(ps[..n][k]) == LastClock(ps[..n])
            && forall l :: k < l < n ==> PacketClock(ps[..n][l]).None?;
          assert PacketClock(ps[k]) == LastClock(ps);
          forall l | k < l < |ps| ensures PacketClock(ps[l]).None? {
            if l < n {
              assert ps[..n][l] == ps[l];
            }
          }
        } else {
          forall k | 0 <= k < |ps| ensures PacketClock(ps[k]).None? {
            if k < n {
              assert ps[..n][k] == ps[k];
            }
          }
        }
      }
    }
  }

  /** The whole-block scanner returns the clock of the last clocked packet that
      the sync scan accepts. */
  method ScanForLastPcr(data: Bytes) returns (clock: Option<Clock>)
    ensures clock == LastClock(SyncScan(data, 0))
  {
    hide SyncScan, PacketClock, LastClock;
    clock := None;
    var i := 0;
    ghost var seen: seq<Packet> := [];
    LastClockEmpty();
    while i + PACKET_SIZE <= |data|
      invariant seen + SyncScan(data, i) == SyncScan(data, 0)
      invariant clock == LastClock(seen)
      decreases |data| - i
    {
      ScanTurn(data, i);
      if data[i] != SYNC_BYTE {
        var next := IndexByte(data[i + 1..], SYNC_BYTE);
        if next < 0 {
          break;
        }
        i := i + next + 1;
        continue;
      }
      var pkt: Packet := data[i..i + PACKET_SIZE];
      if PacketClock(pkt).Some? {
        clock := PacketClock(pkt);
      }
      LastClockSnoc(seen, pkt);
      assert (seen + [pkt]) + SyncScan(data, i + PACKET_SIZE) == seen + SyncScan(data, i);
      seen := seen + [pkt];
      i := i + PACKET_SIZE;
    }
    ScanTurn(data, i);
    assert seen == SyncScan(data, 0);
  }

  // ---- ranges, round trip, agreement ----

  const PCR_BASE_MODULUS: nat := 0x2_0000_0000
  const PCR_TICK_MAX: nat := (PCR_BASE_MODULUS - 1) * 300 + 511

  /** Decoded clocks stay in the range of section 2.4.3.5 of ISO/IEC 13818-1. */
  lemma ClockRange(pkt: Packet)
    requires PacketClock(pkt).Some?
    ensures PacketClock(pkt).value.ticks <= PCR_TICK_MAX
    ensures PacketClock(pkt).value.pid < 0x2000
    ensures PcrBase(pkt) < PCR_BASE_MODULUS
  {
    assert PcrExtension(pkt) < 512;
    assert PcrBase(pkt) <= PCR_BASE_MODULUS - 1;
  }

  /** A packet carrying the given clock, laid out as the standard says. */
  function BuildPcrPacket(pid: nat, base: nat, ext: nat): Packet
    requires pid < 0x2000 && base < PCR_BASE_MODULUS && ext < 512
  {
    [SYNC_BYTE, pid / 256, pid % 256, 0x30, 7, 0x10,
     base / 0x200_0000, base / 0x2_0000 % 256, base / 0x200 % 256, base / 2 % 256,
     (base % 2) * 128 + 0x7E + ext / 256, ext % 256]
    + seq(PACKET_SIZE - 12, _ => 0)
  }

  lemma BaseDigits(base: nat)
    ensures base == base / 0x200_0000 * 0x200_0000 + base / 0x2_0000 % 256 * 0x2_0000
                    + base / 0x200 % 256 * 0x200 + base / 2 % 256 * 2 + base % 2
  {
    assert base / 0x200 == base / 2 / 256;
    assert base / 0x2_0000 == base / 0x200 / 256;
    assert base / 0x200_0000 == base / 0x2_0000 / 256;
  }

  /** Reading back a written clock gives it unchanged, through either reader. */
  lemma PcrRoundTrip(pid: nat, base: nat, ext: nat)
    requires pid < 0x2000 && base < PCR_BASE_MODULUS && ext < 512
    ensures PacketClock(BuildPcrPacket(pid, base, ext)) == Some(Clock(base * 300 + ext, pid))
    ensures FindPcr(BuildPcrPacket(pid, base, ext)) == PcrResult(Some(base), false, false)
  {
    var pkt := BuildPcrPacket(pid, base, ext);
    assert At(pkt, 1) == pid / 256 && At(pkt, 2) == pid % 256;
    assert At(pkt, 3) == 0x30 && At(pkt, 4) == 7 && At(pkt, 5) == 0x10;
    assert At(pkt, 10) == (base % 2) * 128 + 0x7E + ext / 256 && At(pkt, 11) == ext % 256;
    BaseDigits(base);
    assert PcrBase(pkt) == base;
    assert PcrExtension(pkt) == ext;
  }

  /** A packet with these two flags and, if there is one, a clock base. */
  function BuildFlagged(discontinuity: bool, randomAccess: bool, base: Option<nat>): Packet
    requires base.Some? ==> base.value < PCR_BASE_MODULUS
  {
    var b := if base.Some? then base.value else 0;
    [SYNC_BYTE, 1, 0, 0x30, if base.Some? then 7 else 1,
     (if discontinuity then 0x80 else 0) + (if randomAccess then 0x40 else 0) + (if base.Some? then 0x10 else 0),
     b / 0x200_0000, b / 0x2_0000 % 256, b / 0x200 % 256, b / 2 % 256, (b % 2) * 128 + 0x7E, 0]
    + seq(PACKET_SIZE - 12, _ => 0)
  }

  /** Every combination of flags and clock is read back as it was written. */
  lemma FlagsRoundTrip(discontinuity: bool, randomAccess: bool, base: Option<nat>)
    requires base.Some? ==> base.value < PCR_BASE_MODULUS
    ensures FindPcr(BuildFlagged(discontinuity, randomAccess, base)) == PcrResult(base, discontinuity, randomAccess)
  {
    var pkt := BuildFlagged(discontinuity, randomAccess, base);
    var b := if base.Some? then base.value else 0;
    BaseDigits(b);
    assert At(pkt, 3) == 0x30 && At(pkt, 4) == if base.Some? then 7 else 1;
    assert PcrBase(pkt) == b;
  }

  /** Which bits the reader goes by, where there is an adaptation field that fits:
      7 of its flags is the discontinuity, 6 the random access, 4 the clock. */
  lemma FlagBits(pkt: Packet)
    ensures var field := Bit(At(pkt, 3), 5) && 1 <= At(pkt, 4) <= 183;
      (FindPcr(pkt).discontinuity <==> field && Bit(At(pkt, 5), 7))
      && (FindPcr(pkt).randomAccess <==> field && Bit(At(pkt, 5), 6))
      && (FindPcr(pkt).pcr.Some? <==> field && Bit(At(pkt, 5), 4) && At(pkt, 4) >= 7)
  {
    BitByDivision(At(pkt, 3));
    BitByDivision(At(pkt, 5));
  }

  lemma BitByDivision(x: int)
    requires 0 <= x < 256
    ensures Bit(x, 4) <==> x / 16 % 2 == 1
    ensures Bit(x, 5) <==> x / 32 % 2 == 1
    ensures Bit(x, 6) <==> x / 64 % 2 == 1
    ensures Bit(x, 7) <==> x / 128 == 1
  {
    hide Bit;
    FourthBit(x, 0);
    FourthBit(x, 1);
    FourthBit(x, 2);
    FourthBit(x, 3);
    LowBits(x / 16);
  }

  lemma FourthBit(x: nat, i: nat)
    ensures Bit(x, i + 4) <==> Bit(x / 16, i)
  {
    var a := x / 2;
    var b := a / 2;
    var c := b / 2;
    assert Bit(x, i + 4) == Bit(a, i + 3) == Bit(b, i + 2) == Bit(c, i + 1) == Bit(c / 2, i);
    assert c / 2 == x / 16;
  }

  lemma LowBits(y: nat)
    requires y < 16
    ensures Bit(y, 0) <==> y % 2 == 1
    ensures Bit(y, 1) <==> y / 2 % 2 == 1
    ensures Bit(y, 2) <==> y / 4 % 2 == 1
    ensures Bit(y, 3) <==> y / 8 == 1
  {
    hide Bit;
    BitStep(y, 0);
    BitStep(y, 1);
    BitStep(y, 2);
    BitStep(y / 2, 0);
    BitStep(y / 2, 1);
    BitStep(y / 2 / 2, 0);
  }

  lemma BitStep(y: nat, i: nat)
    ensures Bit(y, 0) <==> y % 2 == 1
    ensures Bit(y, i + 1) <==> Bit(y / 2, i)
    ensures Bit(y / 2, 0) <==> y / 2 % 2 == 1
  {
  }

  /** The two readers see a clock in exactly the same packets, and agree on its
      base exactly when the extension is a legal one (below 300). */
  lemma ReadersAgree(pkt: Packet)
    ensures FindPcr(pkt).pcr.Some? <==> PacketClock(pkt).Some?
    ensures FindPcr(pkt).pcr.Some? ==>
      (FindPcr(pkt).pcr.value == PacketClock(pkt).value.ticks / 300 <==> PcrExtension(pkt) < 300)
  {
    assert At(pkt, 3) / 32 % 2 == 1 <==> At(pkt, 3) / 16 % 4 >= 2;
  }
}
