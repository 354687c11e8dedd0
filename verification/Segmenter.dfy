/** The HLS segmenter: cuts the packets of a ring into timed segments. Times are
    90 kHz ticks. */
module Segmenter {
  import opened Common
  import opened TsPackets
  import RB = RingBuffer

  const TARGET: int := 180_000
  const FLUSH: int := 450_000
  const FORCE_CUT: int := 450_000
  const JUMP: int := 5_400_000
  const WRAP: int := 0x2_0000_0000
  const READ_BATCH: int := 5

  datatype Segment = Segment(seq_: nat, data: Bytes, duration: int, discontinuity: bool)

  /** The cutter: packets of the open segment, the clock it began at, the next
      sequence number, every segment pushed so far, the discontinuity flag. */
  datatype Cutter = Cutter(
    acc: Bytes,
    segStart: Option<nat>,
    localSeq: nat,
    pushed: seq<Segment>,
    pending: bool)

  const FRESH := Cutter([], None, 0, [], false)

  // ---- one packet ----

  /** Wrap-corrected time since the open segment began. */
  function Elapsed(pcr: nat, start: nat): int {
    if pcr - start < -(WRAP / 2) then pcr - start + WRAP else pcr - start
  }

  datatype Verdict = Boundary | Silent | Anchor | JumpCut | TimedCut(elapsed: int) | Grow

  function Judge(start: Option<nat>, res: PcrResult, key: bool): Verdict {
    if res.discontinuity then Boundary
    else if res.pcr.None? then Silent
    else if start.None? then Anchor
    else
      var d := res.pcr.value - start.value;
      if d >= -(WRAP / 2) && (d < 0 || d > JUMP) then JumpCut
      else
        var elapsed := Elapsed(res.pcr.value, start.value);
        if elapsed >= TARGET && (key || elapsed >= FORCE_CUT) then TimedCut(elapsed) else Grow
  }

  /** The whole packets at the front of data. */
  function WholePackets(data: Bytes): Bytes {
    data[..|data| / PACKET_SIZE * PACKET_SIZE]
  }

  /** pushSegment, and the sequence number its caller then advances. */
  function Push(c: Cutter, data: Bytes, dur: int): Cutter {
    if |WholePackets(data)| == 0 then c.(localSeq := c.localSeq + 1)
    else
      c.(localSeq := c.localSeq + 1,
         pushed := c.pushed + [Segment(c.localSeq, WholePackets(data), dur, c.pending)],
         pending := false)
  }

  /** pkt, not yet appended, begins a new segment. */
  function AtBoundary(c: Cutter, pkt: Packet, res: PcrResult): Cutter {
    var dur := if c.segStart.Some? && res.pcr.Some? then res.pcr.value - c.segStart.value else TARGET;
    var closed := if |c.acc| >= PACKET_SIZE then Push(c, c.acc, dur) else c;
    closed.(acc := pkt, segStart := res.pcr)
  }

  /** The packet is already the last of c.acc. */
  function AtClock(c: Cutter, res: PcrResult, verdict: Verdict): Cutter {
    match verdict
    case Anchor => c.(segStart := res.pcr)
    case JumpCut => Push(c, c.acc, TARGET).(acc := [], segStart := res.pcr)
    case TimedCut(elapsed) => Push(c, c.acc, elapsed).(acc := [], segStart := res.pcr)
    case _ => c
  }

  function Feed(c: Cutter, pkt: Packet, isKeyframe: Packet -> bool): Cutter {
    var res := FindPcr(pkt);
    var verdict := Judge(c.segStart, res, res.randomAccess || isKeyframe(pkt));
    if verdict.Boundary? then AtBoundary(c, pkt, res)
    else AtClock(c.(acc := c.acc + pkt), res, verdict)
  }

  function FeedAll(c: Cutter, ps: seq<Packet>, isKeyframe: Packet -> bool): Cutter {
    if ps == [] then c else Feed(FeedAll(c, ps[..|ps| - 1], isKeyframe), ps[|ps| - 1], isKeyframe)
  }

  /** The packets a run of chunks yields. */
  function PacketsOf(chunks: seq<Bytes>): seq<Packet> {
    if chunks == [] then [] else PacketsOf(chunks[..|chunks| - 1]) + SyncScan(chunks[|chunks| - 1], 0)
  }

  /** The silence timer: push what there is. */
  function Flushed(c: Cutter): Cutter {
    if |c.acc| < PACKET_SIZE then c
    else
      var n := |WholePackets(c.acc)|;
      Push(c, c.acc[..n], if c.segStart.Some? then FLUSH else TARGET).(acc := c.acc[n..], segStart := None)
  }

  /** The buffer was reset: drop the open segment and mark the next one. */
  function Reanchored(c: Cutter): Cutter {
    c.(acc := [], segStart := None, pending := true)
  }

  /** A segmenter in its place: its cutter, its cursor in the ring, and the
      generation of the ring that the cursor belongs to. */
  datatype Seat = Seat(cut: Cutter, cursor: int, cursorGen: nat)

  /** One turn of the loop: read what there is, or re-anchor if the ring was reset,
      or flush if the timer has fired. */
  function Turned(s: Seat, v: RB.Log, cap: nat, gen: nat, timedOut: bool, isKeyframe: Packet -> bool): Seat {
    if RB.Readable(v, cap, s.cursor) then
      var start, end := RB.ReadStart(v, cap, s.cursor), RB.ReadEnd(v, cap, s.cursor, READ_BATCH);
      Seat(FeedAll(s.cut, PacketsOf(v.chunks[start..end]), isKeyframe), end - 1, s.cursorGen)
    else if gen != s.cursorGen then Seat(Reanchored(s.cut), |v.chunks| - 1, gen)
    else if timedOut then s.(cut := Flushed(s.cut))
    else s
  }

  // ---- the running segmenter ----

  datatype Entry = Entry(discontinuity: bool, duration: int, seq_: nat)

  /** A live playlist, as values: target duration in seconds, media sequence, entries. */
  datatype Playlist = Playlist(target: int, mediaSequence: nat, entries: seq<Entry>)

  class Segmenter {
    const windowSize: nat
    const isKeyframe: Packet -> bool
    const buf: RB.RingBuffer
    var segs: seq<Segment>
    var pendingDiscontinuity: bool
    var cursor: int
    var cursorGen: nat
    var acc: Bytes
    var segStart: Option<nat>
    var localSeq: nat
    /** Every segment ever pushed. */
    ghost var pushed: seq<Segment>

    /** The window is the last of the segments pushed. */
    ghost predicate Windowed()
      reads this
    {
      windowSize > 0 && segs == LastN(pushed, windowSize)
    }

    /** Besides, segments are whole packets under contiguous numbers, and the start
        is a clock; the cuts between two packets break this for a moment. */
    ghost predicate Valid()
      reads this
    {
      Windowed() && Sound(View())
    }

    ghost function View(): Cutter
      reads this
    {
      Cutter(acc, segStart, localSeq, pushed, pendingDiscontinuity)
    }

    constructor (buf: RB.RingBuffer, windowSize: nat, isKeyframe: Packet -> bool)
      requires buf.Valid() && windowSize > 0
      ensures Valid() && View() == FRESH
      ensures this.buf == buf && this.windowSize == windowSize && this.isKeyframe == isKeyframe
      ensures cursor == |buf.View().chunks| - 1 && cursorGen == buf.generation
    {
      this.buf, this.windowSize, this.isKeyframe := buf, windowSize, isKeyframe;
      segs, pendingDiscontinuity, pushed := [], false, [];
      acc, segStart, localSeq := [], None, 0;
      cursor, cursorGen := buf.head - 1, buf.generation;
    }

    method PushSegment(seq_: nat, data: Bytes, dur: int)
      requires Windowed() && seq_ == localSeq
      modifies this`segs, this`pendingDiscontinuity, this`pushed
      ensures Windowed()
      ensures View().(localSeq := localSeq + 1) == Push(old(View()), data, dur)
    {
      var aligned := |data| / PACKET_SIZE * PACKET_SIZE;
      if aligned == 0 {
        return;
      }
      var disc := pendingDiscontinuity;
      pendingDiscontinuity := false;
      var segment := Segment(seq_, data[..aligned], dur, disc);
      segs := segs + [segment];
      if |segs| > windowSize {
        segs := segs[|segs| - windowSize..];
      }
      pushed := pushed + [segment];
    }

    /** A packet with the discontinuity flag, already appended: it opens the next segment. */
    method CutAtBoundary(pkt: Packet, res: PcrResult)
      requires Windowed() && |acc| >= PACKET_SIZE && acc[|acc| - PACKET_SIZE..] == pkt
      modifies this`segs, this`pendingDiscontinuity, this`pushed, this`acc, this`segStart, this`localSeq
      ensures Windowed()
      ensures View() == AtBoundary(old(View().(acc := acc[..|acc| - PACKET_SIZE])), pkt, res)
    {
      acc := acc[..|acc| - PACKET_SIZE];
      if |acc| >= PACKET_SIZE {
        var dur := TARGET;
        if segStart.Some? && res.pcr.Some? {
          dur := res.pcr.value - segStart.value;
        }
        PushSegment(localSeq, acc, dur);
        localSeq := localSeq + 1;
      }
      acc := pkt;
      segStart := None;
      if res.pcr.Some? {
        segStart := res.pcr;
      }
    }

    /** A packet with a clock, already appended, while a segment start is known. */
    method CutAtClock(pkt: Packet, res: PcrResult)
      requires Windowed() && !res.discontinuity && res.pcr.Some? && segStart.Some?
      modifies this`segs, this`pendingDiscontinuity, this`pushed, this`acc, this`segStart, this`localSeq
      ensures Windowed()
      ensures View() == AtClock(old(View()), res, Judge(old(segStart), res, res.randomAccess || isKeyframe(pkt)))
    {
      var pcr := res.pcr.value;
      var elapsed := pcr - segStart.value;
      if elapsed < -(WRAP / 2) {
        elapsed := elapsed + WRAP;
      } else if elapsed < 0 || elapsed > JUMP {
        PushSegment(localSeq, acc, TARGET);
        localSeq := localSeq + 1;
        acc := [];
        segStart := Some(pcr);
        return;
      }
      if elapsed >= TARGET {
        var key := res.randomAccess || isKeyframe(pkt);
        if key || elapsed >= FORCE_CUT {
          PushSegment(localSeq, acc, elapsed);
          localSeq := localSeq + 1;
          acc := [];
          segStart := Some(pcr);
        }
      }
    }

    method FeedPacket(pkt: Packet)
      requires Valid()
      modifies this`segs, this`pendingDiscontinuity, this`pushed, this`acc, this`segStart, this`localSeq
      ensures Valid()
      ensures View() == Feed(old(View()), pkt, isKeyframe)
    {
      hide FindPcr, Sound;
      FeedSound(View(), pkt, isKeyframe);
      acc := acc + pkt;
      var res := FindPcr(pkt);
      if res.discontinuity {
        assert acc[..|acc| - PACKET_SIZE] == old(acc);
        CutAtBoundary(pkt, res);
        return;
      }
      if res.pcr.None? {
        return;
      }
      if segStart.None? {
        segStart := res.pcr;
        return;
      }
      CutAtClock(pkt, res);
    }

    /** The inner loop: find the packets of a chunk and feed them. */
    method ProcessChunk(chunk: Bytes)
      requires Valid()
      modifies this`segs, this`pendingDiscontinuity, this`pushed, this`acc, this`segStart, this`localSeq
      ensures Valid()
      ensures View() == FeedAll(old(View()), SyncScan(chunk, 0), isKeyframe)
    {
      hide Feed, SyncScan, FeedAll;
      var off := 0;
      FeedNone(View(), isKeyframe);
      ghost var fed: seq<Packet> := [];
      while off + PACKET_SIZE <= |chunk|
        invariant Valid()
        invariant fed + SyncScan(chunk, off) == SyncScan(chunk, 0)
        invariant View() == FeedAll(old(View()), fed, isKeyframe)
        decreases |chunk| - off
      {
        ScanTurn(chunk, off);
        if chunk[off] != SYNC_BYTE {
          var next := IndexByte(chunk[off + 1..], SYNC_BYTE);
          if next < 0 {
            break;
          }
          off := off + next + 1;
          continue;
        }
        var pkt: Packet := chunk[off..off + PACKET_SIZE];
        FeedPacket(pkt);
        FeedAllSnoc(old(View()), fed, pkt, isKeyframe);
        assert (fed + [pkt]) + SyncScan(chunk, off + PACKET_SIZE) == fed + SyncScan(chunk, off);
        fed := fed + [pkt];
        off := off + PACKET_SIZE;
      }
      ScanTurn(chunk, off);
      assert fed == SyncScan(chunk, 0);
    }

    /** One turn of the loop. timedOut says whether the flush timer has fired
        when there is nothing to read. */
    method Turn(timedOut: bool)
      requires Valid() && buf.Valid()
      modifies this
      ensures Valid()
      ensures Seat(View(), cursor, cursorGen)
           == Turned(old(Seat(View(), cursor, cursorGen)), buf.View(), buf.cap, buf.generation, timedOut, isKeyframe)
    {
      hide Sound, FeedAll, Flushed, LastN;
      ReanchorSound(View());
      var chunks, newCursor := buf.ReadAfter(cursor, READ_BATCH);
      if |chunks| > 0 {
        cursor := newCursor;
        ProcessChunks(chunks);
      } else if buf.generation != cursorGen {
        acc := [];
        segStart := None;
        cursor := buf.head - 1;
        cursorGen := buf.generation;
        pendingDiscontinuity := true;
      } else if timedOut {
        FlushSilence();
      }
    }

    method ProcessChunks(chunks: seq<Bytes>)
      requires Valid()
      modifies this`segs, this`pendingDiscontinuity, this`pushed, this`acc, this`segStart, this`localSeq
      ensures Valid()
      ensures View() == FeedAll(old(View()), PacketsOf(chunks), isKeyframe)
    {
      for i := 0 to |chunks|
        invariant Valid()
        invariant View() == FeedAll(old(View()), PacketsOf(chunks[..i]), isKeyframe)
      {
        ProcessChunk(chunks[i]);
        assert chunks[..i + 1][..i] == chunks[..i];
        FeedAppend(old(View()), PacketsOf(chunks[..i]), SyncScan(chunks[i], 0), isKeyframe);
      }
      assert chunks[..|chunks|] == chunks;
    }

    method FlushSilence()
      requires Valid()
      modifies this`segs, this`pendingDiscontinuity, this`pushed, this`acc, this`segStart, this`localSeq
      ensures Valid()
      ensures View() == Flushed(old(View()))
    {
      hide Sound;
      FlushSound(View());
      if |acc| >= PACKET_SIZE {
        var aligned := |acc| / PACKET_SIZE * PACKET_SIZE;
        var dur := TARGET;
        if segStart.Some? {
          dur := FLUSH;
        }
        PushSegment(localSeq, acc[..aligned], dur);
        localSeq := localSeq + 1;
        acc := acc[aligned..];
        segStart := None;
      }
    }

    /** Looks a segment up by its number; only the window is searched. */
    method Lookup(seq_: nat) returns (data: Option<Bytes>)
      requires Valid()
      ensures data == if |pushed| - windowSize <= seq_ < |pushed| then Some(pushed[seq_].data) else None
    {
      hide Sound, LastN;
      WindowPlaces(View(), segs, windowSize);
      for i := 0 to |segs|
        invariant !(|pushed| - |segs| <= seq_ < |pushed| - |segs| + i)
      {
        if segs[i].seq_ == seq_ {
          return Some(segs[i].data);
        }
      }
      return None;
    }

    /** The playlist lists the window in order under consecutive numbers; the target
        is the least that leaves every entry a second to spare. */
    method Manifest() returns (m: Playlist)
      requires Valid()
      ensures segs == [] ==> m == Playlist(4, 0, [])
      ensures |m.entries| == |segs| == Min(|pushed|, windowSize)
      ensures forall k :: 0 <= k < |segs| ==>
        m.entries[k] == Entry(segs[k].discontinuity, segs[k].duration, m.mediaSequence + k)
      ensures forall k :: 0 <= k < |segs| ==> m.entries[k].duration <= (m.target - 1) * 90_000
      ensures segs != [] ==>
        m.mediaSequence == |pushed| - |segs|
        && m.target >= 1 && (m.target == 1 || exists k :: 0 <= k < |segs| && segs[k].duration > (m.target - 2) * 90_000)
    {
      hide Sound, LastN;
      WindowPlaces(View(), segs, windowSize);
      if |segs| == 0 {
        return Playlist(4, 0, []);
      }
      var maxDur := 0;
      for i := 0 to |segs|
        invariant maxDur == 0 || (maxDur > 0 && exists k :: 0 <= k < i && segs[k].duration == maxDur)
        invariant forall k :: 0 <= k < i ==> segs[k].duration <= maxDur
      {
        if segs[i].duration > maxDur {
          maxDur := segs[i].duration;
        }
      }
      var entries := [];
      for i := 0 to |segs|
        invariant |entries| == i
        invariant forall k :: 0 <= k < i ==>
          entries[k] == Entry(segs[k].discontinuity, segs[k].duration, |pushed| - |segs| + k)
      {
        entries := entries + [Entry(segs[i].discontinuity, segs[i].duration, segs[i].seq_)];
      }
      m := Playlist((maxDur + 89_999) / 90_000 + 1, segs[0].seq_, entries);
    }
  }

  lemma FeedNone(c: Cutter, isKeyframe: Packet -> bool)
    ensures FeedAll(c, [], isKeyframe) == c
  {
  }

  lemma FeedAllSnoc(c: Cutter, ps: seq<Packet>, p: Packet, isKeyframe: Packet -> bool)
    ensures FeedAll(c, ps + [p], isKeyframe) == Feed(FeedAll(c, ps, isKeyframe), p, isKeyframe)
  {
    hide Feed;
    assert (ps + [p])[..|ps|] == ps;
  }

  lemma {:induction false} FeedAppend(c: Cutter, a: seq<Packet>, b: seq<Packet>, isKeyframe: Packet -> bool)
    ensures FeedAll(c, a + b, isKeyframe) == FeedAll(FeedAll(c, a, isKeyframe), b, isKeyframe)
  {
    if b == [] {
      assert a + b == a;
    } else {
      var n := |b| - 1;
      FeedAppend(c, a, b[..n], isKeyframe);
      assert (a + b)[..|a + b| - 1] == a + b[..n];
    }
  }

  // ---- conservation ----

  /** What a cutter keeps between packets. */
  ghost predicate Sound(c: Cutter) {
    Whole(c) && Numbered(c) && InClockRange(c.segStart)
  }

  /** Sequence numbers count the pushed segments. */
  ghost predicate Numbered(c: Cutter) {
    c.localSeq == |c.pushed| && forall k :: 0 <= k < |c.pushed| ==> c.pushed[k].seq_ == k
  }

  /** Everything held is whole packets, and no segment is empty. */
  ghost predicate Whole(c: Cutter) {
    Aligned(c.acc) && forall s :: s in c.pushed ==> s.data != [] && Aligned(s.data)
  }

  function DataOf(segs: seq<Segment>): Bytes {
    if segs == [] then [] else DataOf(segs[..|segs| - 1]) + segs[|segs| - 1].data
  }

  /** All segments pushed, then the open one. */
  function Payload(c: Cutter): Bytes {
    DataOf(c.pushed) + c.acc
  }

  lemma AlignedAppend(a: Bytes, b: Bytes)
    requires Aligned(a) && Aligned(b)
    ensures Aligned(a + b)
  {
    forall k | 0 <= k < |a + b| && k % PACKET_SIZE == 0 ensures (a + b)[k] == SYNC_BYTE {
      if k >= |a| {
        assert (k - |a|) % PACKET_SIZE == 0;
      }
    }
  }

  lemma PushConserves(c: Cutter, data: Bytes, dur: int)
    requires Aligned(data) && data != [] && Whole(c) && Numbered(c)
    ensures var c' := Push(c, data, dur);
      DataOf(c'.pushed) == DataOf(c.pushed) + data && Numbered(c')
      && (forall s :: s in c'.pushed ==> s.data != [] && Aligned(s.data))
  {
    assert WholePackets(data) == data;
    var c' := Push(c, data, dur);
    assert c'.pushed[..|c'.pushed| - 1] == c.pushed;
  }

  lemma BoundaryConserves(c: Cutter, pkt: Packet, res: PcrResult)
    requires Whole(c) && Numbered(c)
    ensures var c' := AtBoundary(c, pkt, res);
      Whole(c') && Numbered(c') && Payload(c') == Payload(c) + pkt
  {
    hide DataOf, WholePackets;
    assert |c.acc| >= PACKET_SIZE <==> c.acc != [];
    assert Aligned(pkt);
    if c.acc != [] {
      PushConserves(c, c.acc, if c.segStart.Some? && res.pcr.Some? then res.pcr.value - c.segStart.value else TARGET);
    } else {
      assert DataOf(c.pushed) + [] + pkt == DataOf(c.pushed) + pkt;
    }
  }

  lemma ClockConserves(c: Cutter, res: PcrResult, verdict: Verdict)
    requires Whole(c) && Numbered(c) && c.acc != []
    ensures var c' := AtClock(c, res, verdict);
      Whole(c') && Numbered(c') && Payload(c') == Payload(c)
  {
    hide WholePackets, DataOf;
    match verdict
    case JumpCut => PushConserves(c, c.acc, TARGET);
    case TimedCut(elapsed) => PushConserves(c, c.acc, elapsed);
    case _ =>
  }

  lemma AppendConserves(c: Cutter, pkt: Packet)
    requires Whole(c) && Numbered(c)
    ensures var c' := c.(acc := c.acc + pkt);
      Whole(c') && Numbered(c') && Payload(c') == Payload(c) + pkt
  {
    assert Aligned(pkt);
    AlignedAppend(c.acc, pkt);
    assert DataOf(c.pushed) + (c.acc + pkt) == Payload(c) + pkt;
  }

  /** On every branch the packet is kept exactly once, after everything before it. */
  lemma FeedConserves(c: Cutter, pkt: Packet, isKeyframe: Packet -> bool)
    requires Whole(c) && Numbered(c)
    ensures var c' := Feed(c, pkt, isKeyframe);
      Whole(c') && Numbered(c') && Payload(c') == Payload(c) + pkt
  {
    hide FindPcr, Judge, AtClock, AtBoundary, Whole, Numbered, Payload;
    var res := FindPcr(pkt);
    var verdict := Judge(c.segStart, res, res.randomAccess || isKeyframe(pkt));
    BoundaryConserves(c, pkt, res);
    AppendConserves(c, pkt);
    ClockConserves(c.(acc := c.acc + pkt), res, verdict);
  }

  lemma FlushConserves(c: Cutter)
    requires Whole(c) && Numbered(c)
    ensures Whole(Flushed(c)) && Numbered(Flushed(c)) && Payload(Flushed(c)) == Payload(c)
  {
    if |c.acc| >= PACKET_SIZE {
      assert c.acc[..|WholePackets(c.acc)|] == c.acc;
      PushConserves(c, c.acc, if c.segStart.Some? then FLUSH else TARGET);
    }
  }

  lemma FeedSound(c: Cutter, pkt: Packet, isKeyframe: Packet -> bool)
    requires Sound(c)
    ensures Sound(Feed(c, pkt, isKeyframe))
  {
    hide Whole, Numbered, Feed, InClockRange;
    FeedConserves(c, pkt, isKeyframe);
    ClockStaysInRange(c, pkt, isKeyframe);
  }

  lemma FlushSound(c: Cutter)
    requires Sound(c)
    ensures Sound(Flushed(c))
  {
    hide Whole, Numbered;
    FlushConserves(c);
  }

  lemma ReanchorSound(c: Cutter)
    requires Sound(c)
    ensures Sound(Reanchored(c))
  {
  }

  /** The window of the segments pushed, by position. */
  lemma WindowPlaces(c: Cutter, segs: seq<Segment>, windowSize: nat)
    requires Sound(c) && segs == LastN(c.pushed, windowSize)
    ensures |segs| == Min(|c.pushed|, windowSize)
    ensures forall k :: 0 <= k < |segs| ==>
      segs[k] == c.pushed[|c.pushed| - |segs| + k] && segs[k].seq_ == |c.pushed| - |segs| + k
  {
  }

  // ---- one packet and one turn, in their fields ----

  /** A packet with the discontinuity flag: the packets before it are closed, if there
      are any, after the time from the start to its clock, or the target, and it
      opens the next segment. */
  lemma BoundaryExactly(c: Cutter, pkt: Packet, isKeyframe: Packet -> bool)
    requires Sound(c) && FindPcr(pkt).discontinuity
    ensures var c', pcr := Feed(c, pkt, isKeyframe), FindPcr(pkt).pcr;
      c'.acc == pkt && c'.segStart == pcr
      && if c.acc == [] then c'.pushed == c.pushed && c'.pending == c.pending
         else
           c'.pushed == c.pushed + [Segment(|c.pushed|, c.acc,
             if c.segStart.Some? && pcr.Some? then pcr.value - c.segStart.value else 180_000, c.pending)]
           && !c'.pending
  {
    hide FindPcr;
    assert WholePackets(c.acc) == c.acc;
  }

  /** Any other packet is appended. The first clock is the start; a later one closes
      the segment after a jump, backwards or of more than a minute, and else when
      two seconds have passed and the packet is a keyframe, or five have passed. */
  lemma ClockExactly(c: Cutter, pkt: Packet, isKeyframe: Packet -> bool)
    requires Sound(c) && !FindPcr(pkt).discontinuity
    ensures var c', res := Feed(c, pkt, isKeyframe), FindPcr(pkt);
      if res.pcr.None? then c' == c.(acc := c.acc + pkt)
      else if c.segStart.None? then c' == c.(acc := c.acc + pkt, segStart := res.pcr)
      else
        var d := res.pcr.value - c.segStart.value;
        var wrapped := d < -0x1_0000_0000;
        var elapsed := if wrapped then d + 0x2_0000_0000 else d;
        var jump := !wrapped && (d < 0 || d > 5_400_000);
        var key := res.randomAccess || isKeyframe(pkt);
        if jump || (elapsed >= 180_000 && key) || elapsed >= 450_000 then
          c'.pushed == c.pushed + [Segment(|c.pushed|, c.acc + pkt, if jump then 180_000 else elapsed, c.pending)]
          && c'.acc == [] && c'.segStart == res.pcr && !c'.pending
        else c' == c.(acc := c.acc + pkt)
  {
    hide FindPcr;
    assert Aligned(pkt);
    AlignedAppend(c.acc, pkt);
    assert WholePackets(c.acc + pkt) == c.acc + pkt;
  }

  /** One turn: it reads the next five chunks, or as many as there are; with nothing
      to read it moves to the ring's newest index if the ring was reset, forgetting
      the open segment; or, when the timer has fired, closes it. */
  lemma TurnExactly(s: Seat, v: RB.Log, cap: nat, gen: nat, timedOut: bool, isKeyframe: Packet -> bool)
    requires Sound(s.cut)
    ensures var s', start := Turned(s, v, cap, gen, timedOut, isKeyframe), RB.ReadStart(v, cap, s.cursor);
      if v.base <= start < |v.chunks| then
        s'.cursor == Min(start + 5, |v.chunks|) - 1 && s'.cursorGen == s.cursorGen
        && s'.cut == FeedAll(s.cut, PacketsOf(v.chunks[start..s'.cursor + 1]), isKeyframe)
      else if gen != s.cursorGen then
        s'.cursor == |v.chunks| - 1 && s'.cursorGen == gen
        && s'.cut.acc == [] && s'.cut.segStart == None && s'.cut.pending && s'.cut.pushed == s.cut.pushed
      else
        s'.cursor == s.cursor && s'.cursorGen == s.cursorGen
        && if !timedOut || s.cut.acc == [] then s'.cut == s.cut
           else
             s'.cut.pushed == s.cut.pushed
               + [Segment(|s.cut.pushed|, s.cut.acc, if s.cut.segStart.Some? then 450_000 else 180_000, s.cut.pending)]
             && s'.cut.acc == [] && s'.cut.segStart == None && !s'.cut.pending
  {
    hide FeedAll, PacketsOf;
    if |s.cut.acc| >= PACKET_SIZE {
      assert s.cut.acc[..|WholePackets(s.cut.acc)|] == s.cut.acc;
      assert WholePackets(s.cut.acc) == s.cut.acc;
    }
    assert |s.cut.acc| < PACKET_SIZE ==> s.cut.acc == [];
  }

  // ---- every run of the segmenter ----

  datatype Op = Chunk(data: Bytes) | Flush | Reanchor

  function Apply(c: Cutter, op: Op, isKeyframe: Packet -> bool): Cutter {
    match op
    case Chunk(data) => FeedAll(c, SyncScan(data, 0), isKeyframe)
    case Flush => Flushed(c)
    case Reanchor => Reanchored(c)
  }

  function ApplyAll(c: Cutter, ops: seq<Op>, isKeyframe: Packet -> bool): Cutter {
    if ops == [] then c else Apply(ApplyAll(c, ops[..|ops| - 1], isKeyframe), ops[|ops| - 1], isKeyframe)
  }

  /** The packets the sync scan accepts, over a whole run. */
  function Accepted(ops: seq<Op>): seq<Packet> {
    if ops == [] then []
    else Accepted(ops[..|ops| - 1]) + (match ops[|ops| - 1] case Chunk(data) => SyncScan(data, 0) case _ => [])
  }

  lemma {:induction false} FeedAllConserves(c: Cutter, ps: seq<Packet>, isKeyframe: Packet -> bool)
    requires Whole(c) && Numbered(c)
    ensures var c' := FeedAll(c, ps, isKeyframe);
      Whole(c') && Numbered(c') && Payload(c') == Payload(c) + Flatten(ps)
  {
    hide Feed, Whole, Numbered, Payload;
    if ps != [] {
      var n := |ps| - 1;
      FeedAllConserves(c, ps[..n], isKeyframe);
      FeedConserves(FeedAll(c, ps[..n], isKeyframe), ps[n], isKeyframe);
      FlattenSnoc(ps[..n], ps[n]);
      assert ps == ps[..n] + [ps[n]];
    }
  }

  lemma {:induction false} FeedAllSound(c: Cutter, ps: seq<Packet>, isKeyframe: Packet -> bool)
    requires Sound(c)
    ensures Sound(FeedAll(c, ps, isKeyframe))
  {
    hide Sound, Feed;
    if ps != [] {
      FeedAllSound(c, ps[..|ps| - 1], isKeyframe);
      FeedSound(FeedAll(c, ps[..|ps| - 1], isKeyframe), ps[|ps| - 1], isKeyframe);
    }
  }

  /** On every run, re-anchors included, segments are nonempty runs of whole
      packets under contiguous numbers from zero, and the start is a 33-bit clock. */
  lemma {:induction false} SegmentsAlwaysWhole(c: Cutter, ops: seq<Op>, isKeyframe: Packet -> bool)
    requires Sound(c)
    ensures Sound(ApplyAll(c, ops, isKeyframe))
  {
    if ops != [] {
      var n := |ops| - 1;
      SegmentsAlwaysWhole(c, ops[..n], isKeyframe);
      var m := ApplyAll(c, ops[..n], isKeyframe);
      match ops[n]
      case Chunk(data) => FeedAllSound(m, SyncScan(data, 0), isKeyframe);
      case Flush => FlushSound(m);
      case Reanchor =>
    }
  }

  lemma ApplyConserves(c: Cutter, op: Op, isKeyframe: Packet -> bool)
    requires Whole(c) && Numbered(c) && op != Reanchor
    ensures Payload(Apply(c, op, isKeyframe)) == Payload(c) + Flatten(if op.Chunk? then SyncScan(op.data, 0) else [])
  {
    hide Feed, Whole, Numbered, Payload, Flushed, SyncScan;
    match op
    case Chunk(data) => FeedAllConserves(c, SyncScan(data, 0), isKeyframe);
    case Flush => FlushConserves(c);
    case Reanchor =>
  }

  /** Between re-anchors nothing is lost or repeated: the segments pushed, then
      the open one, are exactly the accepted packets in order. */
  lemma {:induction false} SegmentConservation(c: Cutter, ops: seq<Op>, isKeyframe: Packet -> bool)
    requires Sound(c) && Reanchor !in ops
    ensures Payload(ApplyAll(c, ops, isKeyframe)) == Payload(c) + Flatten(Accepted(ops))
  {
    hide Apply, Whole, Numbered, Payload, SyncScan;
    if ops != [] {
      var n := |ops| - 1;
      SegmentConservation(c, ops[..n], isKeyframe);
      SegmentsAlwaysWhole(c, ops[..n], isKeyframe);
      ApplyConserves(ApplyAll(c, ops[..n], isKeyframe), ops[n], isKeyframe);
      FlattenAppend(Accepted(ops[..n]), if ops[n].Chunk? then SyncScan(ops[n].data, 0) else []);
    } else {
      assert Payload(c) + [] == Payload(c);
    }
  }

  /** A re-anchor loses the open segment, nothing else, and the next segment
      pushed is the only one it marks. */
  lemma ReanchorDropsOpenSegment(c: Cutter, data: Bytes, dur: int, data2: Bytes, dur2: int)
    requires |data| >= PACKET_SIZE && |data2| >= PACKET_SIZE
    ensures Payload(Reanchored(c)) + c.acc == Payload(c)
    ensures var c2 := Push(Push(Reanchored(c), data, dur), data2, dur2);
      var n := |c.pushed|;
      |c2.pushed| == n + 2 && c2.pushed[..n] == c.pushed
      && c2.pushed[n].discontinuity && !c2.pushed[n + 1].discontinuity
  {
  }

  // ---- marks ----

  /** From c to c' only the first newly pushed segment can be marked, and it is
      marked exactly when a mark was pending. */
  ghost predicate MarksFrom(c: Cutter, c': Cutter) {
    && c.pushed <= c'.pushed
    && (forall k :: |c.pushed| <= k < |c'.pushed| ==> (c'.pushed[k].discontinuity <==> k == |c.pushed| && c.pending))
    && (c'.pending <==> c.pending && |c'.pushed| == |c.pushed|)
  }

  lemma FeedMarks(c: Cutter, pkt: Packet, isKeyframe: Packet -> bool)
    ensures MarksFrom(c, Feed(c, pkt, isKeyframe))
  {
    hide FindPcr, Judge, WholePackets;
  }

  lemma FlushMarks(c: Cutter)
    ensures MarksFrom(c, Flushed(c))
  {
    hide WholePackets;
  }

  lemma {:induction false} FeedAllMarks(c: Cutter, ps: seq<Packet>, isKeyframe: Packet -> bool)
    ensures MarksFrom(c, FeedAll(c, ps, isKeyframe))
  {
    hide Feed;
    if ps != [] {
      FeedAllMarks(c, ps[..|ps| - 1], isKeyframe);
      FeedMarks(FeedAll(c, ps[..|ps| - 1], isKeyframe), ps[|ps| - 1], isKeyframe);
    }
  }

  lemma ApplyMarks(c: Cutter, op: Op, isKeyframe: Packet -> bool)
    ensures op != Reanchor ==> MarksFrom(c, Apply(c, op, isKeyframe))
    ensures c.pushed <= Apply(c, op, isKeyframe).pushed
  {
    hide FeedAll, Flushed, SyncScan;
    match op
    case Chunk(data) => FeedAllMarks(c, SyncScan(data, 0), isKeyframe);
    case Flush => FlushMarks(c);
    case Reanchor =>
  }

  /** The run re-anchored when exactly k segments had been pushed: between pushing
      segment k - 1 and segment k. */
  ghost predicate ReanchoredAt(ops: seq<Op>, k: int, isKeyframe: Packet -> bool) {
    exists j :: 0 <= j < |ops| && ops[j] == Reanchor && |ApplyAll(FRESH, ops[..j], isKeyframe).pushed| == k
  }

  lemma ReanchoredStep(ops: seq<Op>, k: int, isKeyframe: Packet -> bool)
    requires ops != []
    ensures var front := ops[..|ops| - 1];
      ReanchoredAt(ops, k, isKeyframe)
      <==> ReanchoredAt(front, k, isKeyframe)
           || (ops[|ops| - 1] == Reanchor && |ApplyAll(FRESH, front, isKeyframe).pushed| == k)
  {
    hide ApplyAll;
    var n := |ops| - 1;
    forall j | 0 <= j < n ensures ops[..n][..j] == ops[..j] && ops[..n][j] == ops[j] {
    }
  }

  lemma {:induction false} NotReanchoredBeyond(ops: seq<Op>, k: int, isKeyframe: Packet -> bool)
    requires k > |ApplyAll(FRESH, ops, isKeyframe).pushed|
    ensures !ReanchoredAt(ops, k, isKeyframe)
  {
    hide Apply;
    if ops != [] {
      var front := ops[..|ops| - 1];
      ApplyMarks(ApplyAll(FRESH, front, isKeyframe), ops[|ops| - 1], isKeyframe);
      NotReanchoredBeyond(front, k, isKeyframe);
      ReanchoredStep(ops, k, isKeyframe);
    }
  }

  /** Over every run a segment is marked exactly when the run re-anchored between
      the push before it and its own; a mark is pending exactly when it did since
      the last push. */
  lemma {:induction false} MarkedExactly(ops: seq<Op>, isKeyframe: Packet -> bool)
    ensures var c := ApplyAll(FRESH, ops, isKeyframe);
      (forall k :: 0 <= k < |c.pushed| ==> (c.pushed[k].discontinuity <==> ReanchoredAt(ops, k, isKeyframe)))
      && (c.pending <==> ReanchoredAt(ops, |c.pushed|, isKeyframe))
  {
    if ops != [] {
      var n := |ops| - 1;
      MarkedExactly(ops[..n], isKeyframe);
      MarkedStep(ops, isKeyframe);
    }
  }

  lemma MarkedStep(ops: seq<Op>, isKeyframe: Packet -> bool)
    requires ops != []
    requires var m := ApplyAll(FRESH, ops[..|ops| - 1], isKeyframe);
      (forall k :: 0 <= k < |m.pushed| ==>
         (m.pushed[k].discontinuity <==> ReanchoredAt(ops[..|ops| - 1], k, isKeyframe)))
      && (m.pending <==> ReanchoredAt(ops[..|ops| - 1], |m.pushed|, isKeyframe))
    ensures var c := ApplyAll(FRESH, ops, isKeyframe);
      (forall k :: 0 <= k < |c.pushed| ==> (c.pushed[k].discontinuity <==> ReanchoredAt(ops, k, isKeyframe)))
      && (c.pending <==> ReanchoredAt(ops, |c.pushed|, isKeyframe))
  {
    hide ReanchoredAt, FeedAll, Flushed, SyncScan;
    var front, op := ops[..|ops| - 1], ops[|ops| - 1];
    var m, c := ApplyAll(FRESH, front, isKeyframe), ApplyAll(FRESH, ops, isKeyframe);
    ApplyMarks(m, op, isKeyframe);
    forall k | 0 <= k <= |c.pushed|
      ensures ReanchoredAt(ops, k, isKeyframe) <==> ReanchoredAt(front, k, isKeyframe) || (op == Reanchor && |m.pushed| == k)
      ensures k > |m.pushed| ==> !ReanchoredAt(front, k, isKeyframe)
    {
      ReanchoredStep(ops, k, isKeyframe);
      if k > |m.pushed| {
        NotReanchoredBeyond(front, k, isKeyframe);
      }
    }
  }

  // ---- timing ----

  /** Feeding pkt closes a segment at the clock, by time or by a jump. */
  ghost predicate ClockCut(c: Cutter, pkt: Packet, isKeyframe: Packet -> bool) {
    var res := FindPcr(pkt);
    var v := Judge(c.segStart, res, res.randomAccess || isKeyframe(pkt));
    v.JumpCut? || v.TimedCut?
  }

  ghost predicate InClockRange(start: Option<nat>) {
    start.Some? ==> start.value < WRAP
  }

  lemma ClockStaysInRange(c: Cutter, pkt: Packet, isKeyframe: Packet -> bool)
    requires InClockRange(c.segStart)
    ensures InClockRange(Feed(c, pkt, isKeyframe).segStart)
    ensures InClockRange(FindPcr(pkt).pcr)
  {
    ReadersAgree(pkt);
    if FindPcr(pkt).pcr.Some? {
      ClockRange(pkt);
    }
  }

  /** The wrap-corrected time is the distance on the clock circle, in every case
      that is not treated as a jump. */
  lemma ElapsedIsModular(pcr: nat, start: nat)
    requires pcr < WRAP && start < WRAP && (pcr >= start || pcr - start < -(WRAP / 2))
    ensures Elapsed(pcr, start) == (pcr - start) % WRAP
  {
  }

  /** After a clocked packet without the discontinuity flag, either the start was
      just set to its clock, or less than the force-cut time has elapsed. */
  lemma CutInTime(c: Cutter, pkt: Packet, isKeyframe: Packet -> bool)
    requires InClockRange(c.segStart)
    requires FindPcr(pkt).pcr.Some? && !FindPcr(pkt).discontinuity
    ensures var c' := Feed(c, pkt, isKeyframe);
      c'.segStart.Some?
      && (c'.segStart == FindPcr(pkt).pcr
          || (c'.segStart == c.segStart && 0 <= Elapsed(FindPcr(pkt).pcr.value, c.segStart.value) < FORCE_CUT))
  {
    ClockStaysInRange(c, pkt, isKeyframe);
  }

  /** A segment closed at the clock lasts at least the target. It lasts at most a
      minute exactly when the clock did not wrap inside it, or wrapped and came
      within a minute of the start. */
  lemma ClockCutDuration(c: Cutter, pkt: Packet, isKeyframe: Packet -> bool)
    requires InClockRange(c.segStart) && Whole(c) && ClockCut(c, pkt, isKeyframe)
    ensures var c' := Feed(c, pkt, isKeyframe);
      var n, d := |c.pushed|, FindPcr(pkt).pcr.value - c.segStart.value;
      |c'.pushed| == n + 1 && c'.pushed[n].data == c.acc + pkt
      && TARGET <= c'.pushed[n].duration < WRAP / 2
      && (c'.pushed[n].duration <= JUMP <==> d >= -(WRAP / 2) || d + WRAP <= JUMP)
  {
    ClockStaysInRange(c, pkt, isKeyframe);
    assert Aligned(pkt);
    AlignedAppend(c.acc, pkt);
    assert WholePackets(c.acc + pkt) == c.acc + pkt;
  }

  /** The one-minute guard is skipped after a wrap: two packets are enough, with
      clocks start and 0, for a segment of any length up to half the clock range,
      which is more than thirteen hours. */
  lemma WrappedCutCanBeHours(start: nat, isKeyframe: Packet -> bool)
    requires WRAP / 2 < start < WRAP - JUMP
    ensures var c := FeedAll(FRESH, [BuildPcrPacket(0, start, 0), BuildPcrPacket(0, 0, 0)], isKeyframe);
      |c.pushed| == 1 && c.pushed[0].duration == WRAP - start > JUMP
    ensures WRAP - (WRAP / 2 + 1) > 13 * 3600 * 90_000
  {
    hide FindPcr, BuildPcrPacket, Feed, FeedAll;
    var p, q := BuildPcrPacket(0, start, 0), BuildPcrPacket(0, 0, 0);
    PcrRoundTrip(0, start, 0);
    PcrRoundTrip(0, 0, 0);
    assert [] + [p] == [p] && [p] + [q] == [p, q];
    FeedNone(FRESH, isKeyframe);
    FeedAllSnoc(FRESH, [], p, isKeyframe);
    FeedAllSnoc(FRESH, [p], q, isKeyframe);
    FirstClockAnchors(p, start, isKeyframe);
    WrappedCut(p, q, start, isKeyframe);
  }

  lemma FirstClockAnchors(p: Packet, start: nat, isKeyframe: Packet -> bool)
    requires FindPcr(p) == PcrResult(Some(start), false, false)
    ensures Feed(FRESH, p, isKeyframe) == Cutter(p, Some(start), 0, [], false)
  {
    hide FindPcr, WholePackets;
    assert [] + p == p;
  }

  lemma WrappedCut(p: Packet, q: Packet, start: nat, isKeyframe: Packet -> bool)
    requires FindPcr(q) == PcrResult(Some(0), false, false) && WRAP / 2 < start < WRAP - JUMP
    ensures var c := Feed(Cutter(p, Some(start), 0, [], false), q, isKeyframe);
      |c.pushed| == 1 && c.pushed[0].duration == WRAP - start
  {
    hide FindPcr;
    assert Judge(Some(start), FindPcr(q), isKeyframe(q)) == TimedCut(WRAP - start);
    TwoPackets(p, q);
    hide WholePackets;
  }

  lemma TwoPackets(p: Packet, q: Packet)
    ensures |WholePackets(p + q)| == 2 * PACKET_SIZE
  {
  }

  /** A discontinuity closes the segment with the raw clock difference, which is
      negative exactly when the new clock is behind the segment's start. */
  lemma BoundaryDuration(c: Cutter, pkt: Packet, isKeyframe: Packet -> bool)
    requires Whole(c) && c.acc != [] && c.segStart.Some?
    requires FindPcr(pkt).discontinuity && FindPcr(pkt).pcr.Some?
    ensures var c' := Feed(c, pkt, isKeyframe);
      var n := |c.pushed|;
      |c'.pushed| == n + 1 && c'.pushed[n].data == c.acc && c'.acc == pkt
      && (c'.pushed[n].duration < 0 <==> FindPcr(pkt).pcr.value < c.segStart.value)
  {
    assert WholePackets(c.acc) == c.acc;
  }

  /** No discontinuity flag anywhere in ps. */
  ghost predicate Continuous(ps: seq<Packet>) {
    forall p :: p in ps ==> !FindPcr(p).discontinuity
  }

  /** Through any run of packets without the discontinuity flag, every segment
      closed lasts at least the target. */
  lemma {:induction false} SegmentsLongEnough(c: Cutter, ps: seq<Packet>, isKeyframe: Packet -> bool)
    requires Whole(c) && Numbered(c) && InClockRange(c.segStart) && Continuous(ps)
    ensures var c' := FeedAll(c, ps, isKeyframe);
      InClockRange(c'.segStart) && c.pushed <= c'.pushed
      && forall k :: |c.pushed| <= k < |c'.pushed| ==> TARGET <= c'.pushed[k].duration < WRAP / 2
  {
    if ps != [] {
      var n := |ps| - 1;
      SegmentsLongEnough(c, ps[..n], isKeyframe);
      FeedAllConserves(c, ps[..n], isKeyframe);
      var m := FeedAll(c, ps[..n], isKeyframe);
      ClockStaysInRange(m, ps[n], isKeyframe);
      if ClockCut(m, ps[n], isKeyframe) {
        ClockCutDuration(m, ps[n], isKeyframe);
      }
    }
  }

  function TotalDuration(segs: seq<Segment>): int {
    if segs == [] then 0 else TotalDuration(segs[..|segs| - 1]) + segs[|segs| - 1].duration
  }

  /** Every packet of ps is fed without a jump, a discontinuity or a first anchor. */
  ghost predicate Smooth(c: Cutter, ps: seq<Packet>, isKeyframe: Packet -> bool) {
    ps == []
    || (var m := FeedAll(c, ps[..|ps| - 1], isKeyframe);
        var p := ps[|ps| - 1];
        Smooth(c, ps[..|ps| - 1], isKeyframe)
        && !FindPcr(p).discontinuity
        && !Judge(m.segStart, FindPcr(p), FindPcr(p).randomAccess || isKeyframe(p)).JumpCut?)
  }

  /** One smooth packet: nothing is closed, or one segment whose duration is the
      move of the start, on the clock circle. */
  lemma FeedTelescopes(c: Cutter, p: Packet, isKeyframe: Packet -> bool)
    requires Whole(c) && c.segStart.Some? && !FindPcr(p).discontinuity
    requires !Judge(c.segStart, FindPcr(p), FindPcr(p).randomAccess || isKeyframe(p)).JumpCut?
    ensures var c' := Feed(c, p, isKeyframe);
      c'.segStart.Some?
      && ((c'.pushed == c.pushed && c'.segStart == c.segStart)
          || (|c'.pushed| == |c.pushed| + 1 && c'.pushed[..|c.pushed|] == c.pushed
              && (c'.pushed[|c.pushed|].duration == c'.segStart.value - c.segStart.value
                  || c'.pushed[|c.pushed|].duration == c'.segStart.value - c.segStart.value + WRAP)))
  {
    hide FindPcr;
    AlignedAppend(c.acc, p);
    assert WholePackets(c.acc + p) == c.acc + p;
  }

  lemma TotalSnoc(segs: seq<Segment>, n: nat)
    requires n < |segs|
    ensures TotalDuration(segs[n..]) == TotalDuration(segs[..|segs| - 1][n..]) + segs[|segs| - 1].duration
  {
    assert segs[n..][..|segs| - 1 - n] == segs[..|segs| - 1][n..];
  }

  /** The timeline telescopes: over a smooth run, however often the clock wraps,
      the durations of the segments closed add up, modulo the clock, to how far
      the segment start has moved. */
  lemma {:induction false} DurationsTelescope(c: Cutter, ps: seq<Packet>, isKeyframe: Packet -> bool)
    requires Whole(c) && Numbered(c) && c.segStart.Some? && Smooth(c, ps, isKeyframe)
    ensures var c' := FeedAll(c, ps, isKeyframe);
      c'.segStart.Some? && c.pushed <= c'.pushed
      && (TotalDuration(c'.pushed[|c.pushed|..]) - (c'.segStart.value - c.segStart.value)) % WRAP == 0
  {
    hide FindPcr, Feed, Judge, Whole, Numbered;
    if ps != [] {
      var n := |ps| - 1;
      DurationsTelescope(c, ps[..n], isKeyframe);
      FeedAllConserves(c, ps[..n], isKeyframe);
      FeedTelescopes(FeedAll(c, ps[..n], isKeyframe), ps[n], isKeyframe);
      var m, c' := FeedAll(c, ps[..n], isKeyframe), FeedAll(c, ps, isKeyframe);
      if c'.pushed != m.pushed {
        TotalSnoc(c'.pushed, |c.pushed|);
      }
    }
  }
}
