/** From the bytes written into a ring to the segments cut out of it. */
module EndToEnd {
  import opened Common
  import opened TsPackets
  import RB = RingBuffer
  import RingRuns
  import S = Segmenter

  lemma AlignedSplit(data: Bytes, t: nat)
    requires Aligned(data) && t % PACKET_SIZE == 0 && t <= |data|
    ensures Aligned(data[..t]) && Aligned(data[t..])
  {
    Multiples(|data|, t);
    forall k | 0 <= k < |data| - t && k % PACKET_SIZE == 0 ensures data[t..][k] == SYNC_BYTE {
      Multiples(k, t);
    }
  }

  lemma Multiples(a: nat, b: nat)
    requires a % PACKET_SIZE == 0 && b % PACKET_SIZE == 0
    ensures (a + b) % PACKET_SIZE == 0
    ensures a >= b ==> (a - b) % PACKET_SIZE == 0
  {
  }

  /** An aligned stream is chopped into aligned chunks. */
  lemma {:induction false} ChopAligned(data: Bytes, t: nat)
    requires Aligned(data) && t > 0 && t % PACKET_SIZE == 0
    ensures forall i :: 0 <= i < |RB.Chop(data, t)| ==> Aligned(RB.Chop(data, t)[i])
  {
    if |data| >= t {
      AlignedSplit(data, t);
      ChopAligned(data[t..], t);
    }
  }

  lemma {:induction false} PacketsOfAligned(chunks: seq<Bytes>)
    requires forall i :: 0 <= i < |chunks| ==> Aligned(chunks[i])
    ensures Flatten(S.PacketsOf(chunks)) == Flatten(chunks)
  {
    hide SyncScan, Aligned;
    if chunks != [] {
      var n := |chunks| - 1;
      PacketsOfAligned(chunks[..n]);
      ScanOfAligned(chunks[n], 0);
      assert chunks[n][0..] == chunks[n];
      FlattenAppend(S.PacketsOf(chunks[..n]), SyncScan(chunks[n], 0));
      FlattenSnoc(chunks[..n], chunks[n]);
      assert chunks == chunks[..n] + [chunks[n]];
    }
  }

  lemma {:induction false} ChopPrefix(data: Bytes, t: nat, n: nat)
    requires t > 0 && n <= |RB.Chop(data, t)|
    ensures n * t <= |data| && Flatten(RB.Chop(data, t)[..n]) == data[..n * t]
    decreases n
  {
    var cs := RB.Chop(data, t);
    if n > 0 {
      ChopPrefix(data[t..], t, n - 1);
      assert n * t == (n - 1) * t + t;
      assert cs[..n] == [data[..t]] + RB.Chop(data[t..], t)[..n - 1];
      assert data[..n * t] == data[..t] + data[t..][..(n - 1) * t];
    }
  }

  lemma FreshIsEmpty()
    ensures S.Payload(S.FRESH) == [] && S.Whole(S.FRESH) && S.Numbered(S.FRESH)
  {
  }

  /** However an aligned stream was split into writes, and whatever happened to
      the ring before, a segmenter fed the first n chunks stored since the last
      reset has pushed, and holds, exactly the first n * t bytes written since
      then: nothing lost, repeated, reordered or cut inside a packet. */
  lemma StreamReachesSegments(cursor: int, t: nat, cap: nat, ops: seq<RingRuns.Op>, n: nat, isKeyframe: Packet -> bool)
    requires t > 0 && t % PACKET_SIZE == 0
    requires var r := RingRuns.Exec(RingRuns.Start(cursor), t, cap, ops);
      Aligned(r.fed) && r.log.base + n <= |r.log.chunks|
    ensures var r := RingRuns.Exec(RingRuns.Start(cursor), t, cap, ops);
      var c := S.FeedAll(S.FRESH, S.PacketsOf(r.log.chunks[r.log.base..r.log.base + n]), isKeyframe);
      n * t <= |r.fed| && S.Payload(c) == r.fed[..n * t] && S.Whole(c) && S.Numbered(c)
  {
    hide S.Feed, S.Payload, SyncScan, RingRuns.Step, S.Whole, S.Numbered, Aligned, S.FeedAll, S.PacketsOf, RB.Chop, Flatten;
    var r := RingRuns.Exec(RingRuns.Start(cursor), t, cap, ops);
    RingRuns.ChunksDependOnlyOnBytes(cursor, t, cap, ops);
    var chunks := RB.Chop(r.fed, t);
    assert r.log.chunks[r.log.base..r.log.base + n] == chunks[..n];
    ChopAligned(r.fed, t);
    PacketsOfAligned(chunks[..n]);
    ChopPrefix(r.fed, t, n);
    FreshIsEmpty();
    S.FeedAllConserves(S.FRESH, S.PacketsOf(chunks[..n]), isKeyframe);
  }

  // ---- a segmenter at work on a ring ----

  /** A ring and its reader's deliveries since the reader was last anchored, the
      ring's generation, the cutter, the generation of the cursor; and, to speak
      about them, the cursor at the anchor and the segments' bytes by then. */
  datatype System = System(run: RingRuns.Run, gen: nat, cut: S.Cutter, cursorGen: nat, anchor: int, before: Bytes)

  /** A new segmenter, anchored at the live edge of a ring. */
  function Attached(r: RingRuns.Run, gen: nat): System {
    System(r.(cursor := |r.log.chunks| - 1, delivered := []), gen, S.FRESH, gen, |r.log.chunks| - 1, [])
  }

  datatype Op = Write(data: Bytes) | Reset | Stop | Turn(timedOut: bool)

  /** The ring's own steps, and the segmenter's turns. */
  function Step(s: System, t: nat, cap: nat, isKeyframe: Packet -> bool, op: Op): System
    requires t > 0
  {
    match op
    case Write(data) => s.(run := RingRuns.Step(s.run, t, cap, RingRuns.Write(data)))
    case Reset => s.(run := RingRuns.Step(s.run, t, cap, RingRuns.Reset), gen := s.gen + 1)
    case Stop => s.(run := RingRuns.Step(s.run, t, cap, RingRuns.Stop))
    case Turn(timedOut) =>
      var seat := S.Turned(S.Seat(s.cut, s.run.cursor, s.cursorGen), s.run.log, cap, s.gen, timedOut, isKeyframe);
      if RB.Readable(s.run.log, cap, s.run.cursor) then
        s.(run := RingRuns.Step(s.run, t, cap, RingRuns.Poll(S.READ_BATCH)), cut := seat.cut, cursorGen := seat.cursorGen)
      else if s.gen != s.cursorGen then
        s.(run := s.run.(cursor := seat.cursor, delivered := []), cut := seat.cut, cursorGen := seat.cursorGen,
           anchor := seat.cursor, before := S.DataOf(seat.cut.pushed))
      else s.(run := s.run.(cursor := seat.cursor), cut := seat.cut, cursorGen := seat.cursorGen)
  }

  function Exec(s: System, t: nat, cap: nat, isKeyframe: Packet -> bool, ops: seq<Op>): System
    requires t > 0
  {
    if ops == [] then s else Step(Exec(s, t, cap, isKeyframe, ops[..|ops| - 1]), t, cap, isKeyframe, ops[|ops| - 1])
  }

  /** The bookkeeping above follows the segmenter: cursor and all. */
  lemma TurnIsTurned(s: System, t: nat, cap: nat, isKeyframe: Packet -> bool, timedOut: bool)
    requires t > 0
    ensures var s' := Step(s, t, cap, isKeyframe, Turn(timedOut));
      S.Seat(s'.cut, s'.run.cursor, s'.cursorGen)
      == S.Turned(S.Seat(s.cut, s.run.cursor, s.cursorGen), s.run.log, cap, s.gen, timedOut, isKeyframe)
      && s'.run.log == s.run.log
  {
  }

  function ChunksOf(ds: seq<RingRuns.Delivery>): seq<Bytes> {
    seq(|ds|, k requires 0 <= k < |ds| => ds[k].chunk)
  }

  /** All segments and the open one are what they were at the anchor, then exactly
      the packets of the chunks delivered since; and the deliveries are faithful:
      in order, each genuine, and none missing that was not overwritten. */
  ghost predicate Conserved(s: System, cap: nat) {
    && s.anchor >= -1 && RingRuns.Faithful(s.run, s.anchor, cap)
    && S.Sound(s.cut)
    && S.Payload(s.cut) == s.before + Flatten(S.PacketsOf(ChunksOf(s.run.delivered)))
  }

  lemma {:induction false} PacketsAppend(a: seq<Bytes>, b: seq<Bytes>)
    ensures S.PacketsOf(a + b) == S.PacketsOf(a) + S.PacketsOf(b)
  {
    if b == [] {
      assert a + b == a;
    } else {
      hide SyncScan, S.PacketsOf;
      var n := |b| - 1;
      PacketsAppend(a, b[..n]);
      PacketsSnoc(a + b[..n], b[n]);
      PacketsSnoc(b[..n], b[n]);
      SplitLast(a, b);
      Assoc(S.PacketsOf(a), S.PacketsOf(b[..n]), SyncScan(b[n], 0));
    }
  }

  lemma SplitLast<T>(a: seq<T>, b: seq<T>)
    requires b != []
    ensures var n := |b| - 1; a + b == (a + b[..n]) + [b[n]] && b == b[..n] + [b[n]]
  {
  }

  lemma PacketsSnoc(cs: seq<Bytes>, c: Bytes)
    ensures S.PacketsOf(cs + [c]) == S.PacketsOf(cs) + SyncScan(c, 0)
  {
    hide SyncScan;
    assert (cs + [c])[..|cs|] == cs;
  }

  lemma ChunksAppend(ds: seq<RingRuns.Delivery>, v: RB.Log, start: int, end: int)
    requires 0 <= start <= end <= |v.chunks|
    ensures ChunksOf(ds + RingRuns.Deliver(v, start, end)) == ChunksOf(ds) + v.chunks[start..end]
  {
  }

  /** A turn that reads. */
  lemma ReadConserves(s: System, t: nat, cap: nat, isKeyframe: Packet -> bool, timedOut: bool)
    requires t > 0 && cap > 0 && Conserved(s, cap) && RB.Readable(s.run.log, cap, s.run.cursor)
    ensures Conserved(Step(s, t, cap, isKeyframe, Turn(timedOut)), cap)
  {
    hide RingRuns.Faithful, S.Payload, S.Sound, S.FeedAll, S.PacketsOf, RB.Readable, RB.ReadStart, RB.ReadEnd, ChunksOf, RingRuns.Deliver, Flatten;
    var v := s.run.log;
    var start, end := RB.ReadStart(v, cap, s.run.cursor), RB.ReadEnd(v, cap, s.run.cursor, S.READ_BATCH);
    RangeOk(v, cap, s.run.cursor);
    var chunks := v.chunks[start..end];
    RingRuns.PollFaithful(s.run, s.anchor, t, cap, S.READ_BATCH);
    S.FeedAllSound(s.cut, S.PacketsOf(chunks), isKeyframe);
    PayloadGrows(s.cut, S.PacketsOf(chunks), isKeyframe);
    ChunksAppend(s.run.delivered, v, start, end);
    DeliveredMore(ChunksOf(s.run.delivered), chunks);
  }

  lemma DeliveredMore(a: seq<Bytes>, b: seq<Bytes>)
    ensures Flatten(S.PacketsOf(a + b)) == Flatten(S.PacketsOf(a)) + Flatten(S.PacketsOf(b))
  {
    PacketsAppend(a, b);
    FlattenAppend(S.PacketsOf(a), S.PacketsOf(b));
  }

  lemma RangeOk(v: RB.Log, cap: nat, cursor: int)
    requires RB.Readable(v, cap, cursor)
    ensures 0 <= RB.ReadStart(v, cap, cursor) < RB.ReadEnd(v, cap, cursor, S.READ_BATCH) <= |v.chunks|
  {
  }

  lemma PayloadGrows(c: S.Cutter, ps: seq<Packet>, isKeyframe: Packet -> bool)
    requires S.Sound(c)
    ensures S.Payload(S.FeedAll(c, ps, isKeyframe)) == S.Payload(c) + Flatten(ps)
  {
    S.FeedAllConserves(c, ps, isKeyframe);
  }

  /** A turn that finds nothing to read. */
  lemma IdleConserves(s: System, t: nat, cap: nat, isKeyframe: Packet -> bool, timedOut: bool)
    requires t > 0 && cap > 0 && Conserved(s, cap) && !RB.Readable(s.run.log, cap, s.run.cursor)
    ensures Conserved(Step(s, t, cap, isKeyframe, Turn(timedOut)), cap)
  {
    hide RB.Readable, S.Flushed, S.Sound, S.PacketsOf;
    S.FlushSound(s.cut);
    FlushKeepsPayload(s.cut);
    S.ReanchorSound(s.cut);
    assert ChunksOf([]) == [] && Flatten(S.PacketsOf([])) == [] by { NothingDelivered(); }
  }

  lemma NothingDelivered()
    ensures ChunksOf([]) == [] && Flatten(S.PacketsOf([])) == []
  {
  }

  lemma FlushKeepsPayload(c: S.Cutter)
    requires S.Sound(c)
    ensures S.Payload(S.Flushed(c)) == S.Payload(c)
  {
    S.FlushConserves(c);
  }

  lemma StepConserves(s: System, t: nat, cap: nat, isKeyframe: Packet -> bool, op: Op)
    requires t > 0 && cap > 0 && Conserved(s, cap)
    ensures Conserved(Step(s, t, cap, isKeyframe, op), cap)
  {
    hide RingRuns.Faithful, S.Payload, S.Sound, S.Turned, RB.Readable, RingRuns.Step;
    match op
    case Write(data) =>
      RingRuns.OtherFaithful(s.run, s.anchor, t, cap, RingRuns.Write(data));
      KeepsDelivered(s.run, t, cap, RingRuns.Write(data));
    case Reset =>
      RingRuns.OtherFaithful(s.run, s.anchor, t, cap, RingRuns.Reset);
      KeepsDelivered(s.run, t, cap, RingRuns.Reset);
    case Stop =>
      RingRuns.OtherFaithful(s.run, s.anchor, t, cap, RingRuns.Stop);
      KeepsDelivered(s.run, t, cap, RingRuns.Stop);
    case Turn(timedOut) =>
      if RB.Readable(s.run.log, cap, s.run.cursor) {
        ReadConserves(s, t, cap, isKeyframe, timedOut);
      } else {
        IdleConserves(s, t, cap, isKeyframe, timedOut);
      }
  }

  lemma KeepsDelivered(r: RingRuns.Run, t: nat, cap: nat, op: RingRuns.Op)
    requires t > 0 && !op.Poll?
    ensures RingRuns.Step(r, t, cap, op).delivered == r.delivered && RingRuns.Step(r, t, cap, op).cursor == r.cursor
  {
  }

  /** Over every interleaving of writes, resets, stops and turns of the segmenter:
      since the last anchor, segments and open segment have grown by exactly the
      packets of the chunks delivered, and a chunk was passed over only because
      it had been overwritten. */
  lemma {:induction false} SegmentsAreDelivered(r: RingRuns.Run, gen: nat, t: nat, cap: nat, isKeyframe: Packet -> bool, ops: seq<Op>)
    requires t > 0 && cap > 0 && r.log.base <= |r.log.chunks|
    ensures Conserved(Exec(Attached(r, gen), t, cap, isKeyframe, ops), cap)
  {
    if ops == [] {
      NothingDelivered();
      FreshIsEmpty();
    } else {
      hide Conserved, Step;
      SegmentsAreDelivered(r, gen, t, cap, isKeyframe, ops[..|ops| - 1]);
      StepConserves(Exec(Attached(r, gen), t, cap, isKeyframe, ops[..|ops| - 1]), t, cap, isKeyframe, ops[|ops| - 1]);
    }
  }

  // ---- when nothing is overwritten ----

  /** With nothing overwritten since the anchor, the deliveries are the log from the
      anchor to the cursor. */
  lemma {:induction false} DeliveredAt(r: RingRuns.Run, start: int, cap: nat, k: nat)
    requires RingRuns.Faithful(r, start, cap) && |r.log.chunks| - cap <= start + 1 && k < |r.delivered|
    ensures r.delivered[k].index == start + 1 + k
    decreases k
  {
    forall j | 0 <= j < k ensures r.delivered[j].index == start + 1 + j {
      DeliveredAt(r, start, cap, j);
    }
    var i := start + 1 + k;
    assert RingRuns.Genuine(r, start, r.delivered[k]);
    assert r.delivered[k].index >= i by {
      if k > 0 {
        assert r.delivered[k - 1].index < r.delivered[k].index;
      }
    }
    assert r.delivered[k].index <= r.cursor by {
      if k < |r.delivered| - 1 {
        assert r.delivered[k].index < r.delivered[|r.delivered| - 1].index;
      }
    }
    assert RingRuns.Given(r, i);
    var j :| 0 <= j < |r.delivered| && r.delivered[j].index == i;
    assert j >= k;
  }

  lemma AllDelivered(r: RingRuns.Run, start: int, cap: nat)
    requires start >= -1 && RingRuns.Faithful(r, start, cap) && |r.log.chunks| - cap <= start + 1 && start < |r.log.chunks|
    ensures start <= r.cursor < |r.log.chunks| && ChunksOf(r.delivered) == r.log.chunks[start + 1..r.cursor + 1]
  {
    forall k | 0 <= k < |r.delivered|
      ensures r.delivered[k].index == start + 1 + k && r.delivered[k].chunk == r.log.chunks[start + 1 + k]
    {
      DeliveredAt(r, start, cap, k);
      assert RingRuns.Genuine(r, start, r.delivered[k]);
    }
  }

  lemma {:induction false} AlwaysChunked(r: RingRuns.Run, gen: nat, t: nat, cap: nat, isKeyframe: Packet -> bool, ops: seq<Op>)
    requires t > 0 && RingRuns.Chunked(r, t)
    ensures var s := Exec(Attached(r, gen), t, cap, isKeyframe, ops);
      RingRuns.Chunked(s.run, t) && s.anchor < |s.run.log.chunks|
  {
    if ops != [] {
      var s := Exec(Attached(r, gen), t, cap, isKeyframe, ops[..|ops| - 1]);
      AlwaysChunked(r, gen, t, cap, isKeyframe, ops[..|ops| - 1]);
      ChunkedStep(s, t, cap, isKeyframe, ops[|ops| - 1]);
    }
  }

  lemma ChunkedStep(s: System, t: nat, cap: nat, isKeyframe: Packet -> bool, op: Op)
    requires t > 0 && RingRuns.Chunked(s.run, t) && s.anchor < |s.run.log.chunks|
    ensures var s' := Step(s, t, cap, isKeyframe, op);
      RingRuns.Chunked(s'.run, t) && s'.anchor < |s'.run.log.chunks|
  {
    hide S.FeedAll, S.PacketsOf, S.Flushed, RB.Chop, RB.Rest;
    match op
    case Write(data) => RingRuns.StepChunked(s.run, t, cap, RingRuns.Write(data));
    case Reset => RingRuns.StepChunked(s.run, t, cap, RingRuns.Reset);
    case Stop =>
    case Turn(timedOut) =>
  }

  /** The bytes of chunks m to n of a stream. */
  lemma ChopSlice(data: Bytes, t: nat, m: nat, n: nat)
    requires t > 0 && m <= n <= |RB.Chop(data, t)|
    ensures m * t <= n * t <= |data| && Flatten(RB.Chop(data, t)[m..n]) == data[m * t..n * t]
  {
    hide RB.Chop, Flatten;
    var cs := RB.Chop(data, t);
    ChopPrefix(data, t, m);
    ChopPrefix(data, t, n);
    FlattenAppend(cs[..m], cs[m..n]);
    assert cs[..n] == cs[..m] + cs[m..n];
    SuffixOf(data[..m * t], Flatten(cs[m..n]), data[..n * t]);
  }

  lemma SuffixOf(a: Bytes, b: Bytes, c: Bytes)
    requires a + b == c
    ensures b == c[|a|..]
  {
  }

  /** An aligned stream, however split into writes, under every interleaving of
      turns: unless the segmenter fell a whole capacity behind, what it has pushed
      and holds since it was anchored is exactly the bytes written from there to
      its cursor, nothing lost, repeated, reordered or cut inside a packet. */
  lemma StreamReachesTurns(r: RingRuns.Run, gen: nat, t: nat, cap: nat, isKeyframe: Packet -> bool, ops: seq<Op>)
    requires t > 0 && t % PACKET_SIZE == 0 && cap > 0 && RingRuns.Chunked(r, t)
    requires var s := Exec(Attached(r, gen), t, cap, isKeyframe, ops);
      Aligned(s.run.fed) && s.run.log.base <= s.anchor + 1 && |s.run.log.chunks| - cap <= s.anchor + 1
    ensures var s := Exec(Attached(r, gen), t, cap, isKeyframe, ops);
      var m, n := s.anchor + 1 - s.run.log.base, s.run.cursor + 1 - s.run.log.base;
      0 <= m * t <= n * t <= |s.run.fed|
      && S.Payload(s.cut) == s.before + s.run.fed[m * t..n * t] && S.Sound(s.cut)
  {
    hide S.Payload, S.Sound, Exec, Attached, RB.Chop, RB.Rest, RingRuns.Faithful, Aligned, SyncScan, Flatten;
    var s := Exec(Attached(r, gen), t, cap, isKeyframe, ops);
    AttachedBase(r, t);
    SegmentsAreDelivered(r, gen, t, cap, isKeyframe, ops);
    AlwaysChunked(r, gen, t, cap, isKeyframe, ops);
    AllDelivered(s.run, s.anchor, cap);
    var base, chunks := s.run.log.base, RB.Chop(s.run.fed, t);
    var m, n := s.anchor + 1 - base, s.run.cursor + 1 - base;
    assert s.run.log.chunks[base + m..base + n] == chunks[m..n];
    ChopAligned(s.run.fed, t);
    PacketsOfAligned(chunks[m..n]);
    ChopSlice(s.run.fed, t, m, n);
  }

  lemma AttachedBase(r: RingRuns.Run, t: nat)
    requires t > 0 && RingRuns.Chunked(r, t)
    ensures r.log.base <= |r.log.chunks|
  {
  }

  // ---- back at the live edge after a reset ----

  /** The cursor belongs to the ring's generation only if it is level with the ring:
      not behind the last reset, and neither is the anchor. */
  ghost predicate UpToDate(s: System) {
    && s.cursorGen <= s.gen && 0 <= s.run.log.base <= |s.run.log.chunks| && -1 <= s.run.cursor < |s.run.log.chunks|
    && (s.gen == s.cursorGen ==> RingRuns.Level(s.run) && s.run.log.base <= s.anchor + 1 <= s.run.cursor + 1)
  }

  lemma StepUpToDate(s: System, t: nat, cap: nat, isKeyframe: Packet -> bool, op: Op)
    requires t > 0 && cap > 0 && UpToDate(s)
    ensures UpToDate(Step(s, t, cap, isKeyframe, op))
  {
    hide S.FeedAll, S.PacketsOf, S.Flushed, S.DataOf, RB.Chop, RB.Rest;
  }

  lemma {:induction false} AlwaysUpToDate(r: RingRuns.Run, gen: nat, t: nat, cap: nat, isKeyframe: Packet -> bool, ops: seq<Op>)
    requires t > 0 && cap > 0 && r.log.base <= |r.log.chunks|
    ensures UpToDate(Exec(Attached(r, gen), t, cap, isKeyframe, ops))
  {
    if ops != [] {
      hide UpToDate, Step;
      AlwaysUpToDate(r, gen, t, cap, isKeyframe, ops[..|ops| - 1]);
      StepUpToDate(Exec(Attached(r, gen), t, cap, isKeyframe, ops[..|ops| - 1]), t, cap, isKeyframe, ops[|ops| - 1]);
    }
  }

  /** A turn that finds the ring reset and nothing to read leaves the segmenter at
      the ring's newest index, level with the ring, and in its generation. */
  lemma ReanchorIsLive(s: System, t: nat, cap: nat, isKeyframe: Packet -> bool, timedOut: bool)
    requires t > 0 && cap > 0 && UpToDate(s) && s.gen != s.cursorGen && !RB.Readable(s.run.log, cap, s.run.cursor)
    ensures var s' := Step(s, t, cap, isKeyframe, Turn(timedOut));
      s'.run.cursor == |s.run.log.chunks| - 1 && s'.anchor == |s.run.log.chunks| - 1
      && s'.cursorGen == s'.gen && RingRuns.Level(s'.run) && s'.run.log == s.run.log
  {
    hide RB.Readable;
  }

  /** From there on, through every run of writes, stops and turns until the next
      reset, the segmenter can read exactly when a chunk newer than its cursor is
      stored, and gets the very next one unless it has been overwritten. */
  lemma {:induction false} LiveUntilReset(s: System, t: nat, cap: nat, isKeyframe: Packet -> bool, ops: seq<Op>)
    requires t > 0 && cap > 0 && UpToDate(s) && s.gen == s.cursorGen && Reset !in ops
    ensures var s' := Exec(s, t, cap, isKeyframe, ops);
      UpToDate(s') && s'.gen == s'.cursorGen == s.gen && s'.anchor == s.anchor && s'.run.log.base == s.run.log.base
      && (RB.Readable(s'.run.log, cap, s'.run.cursor) <==> s'.run.cursor + 1 < |s'.run.log.chunks|)
      && RB.ReadStart(s'.run.log, cap, s'.run.cursor) == Max(s'.run.cursor + 1, |s'.run.log.chunks| - cap)
  {
    if ops != [] {
      var m := Exec(s, t, cap, isKeyframe, ops[..|ops| - 1]);
      LiveUntilReset(s, t, cap, isKeyframe, ops[..|ops| - 1]);
      StepUpToDate(m, t, cap, isKeyframe, ops[|ops| - 1]);
      LiveStep(m, t, cap, isKeyframe, ops[|ops| - 1]);
    }
    hide Exec, Step;
    LiveReads(Exec(s, t, cap, isKeyframe, ops), cap);
  }

  lemma LiveStep(s: System, t: nat, cap: nat, isKeyframe: Packet -> bool, op: Op)
    requires t > 0 && s.gen == s.cursorGen && op != Reset
    ensures var s' := Step(s, t, cap, isKeyframe, op);
      s'.gen == s'.cursorGen == s.gen && s'.anchor == s.anchor && s'.run.log.base == s.run.log.base
  {
    hide S.FeedAll, S.PacketsOf, S.Flushed, S.DataOf, RB.Chop, RB.Rest, RB.Readable;
  }

  lemma LiveReads(s: System, cap: nat)
    requires cap > 0 && UpToDate(s) && s.gen == s.cursorGen
    ensures RB.Readable(s.run.log, cap, s.run.cursor) <==> s.run.cursor + 1 < |s.run.log.chunks|
    ensures RB.ReadStart(s.run.log, cap, s.run.cursor) == Max(s.run.cursor + 1, |s.run.log.chunks| - cap)
  {
  }

  /** The stream reaches the segments, after any run at all: in the ring's own
      generation, with less than a capacity stored since the anchor, what was pushed
      and is held since the anchor is exactly the bytes from there to the cursor. */
  lemma StreamReachesCurrent(r: RingRuns.Run, gen: nat, t: nat, cap: nat, isKeyframe: Packet -> bool, ops: seq<Op>)
    requires t > 0 && t % PACKET_SIZE == 0 && cap > 0 && RingRuns.Chunked(r, t)
    requires var s := Exec(Attached(r, gen), t, cap, isKeyframe, ops);
      Aligned(s.run.fed) && s.gen == s.cursorGen && |s.run.log.chunks| - cap <= s.anchor + 1
    ensures var s := Exec(Attached(r, gen), t, cap, isKeyframe, ops);
      var m, n := s.anchor + 1 - s.run.log.base, s.run.cursor + 1 - s.run.log.base;
      0 <= m * t <= n * t <= |s.run.fed|
      && S.Payload(s.cut) == s.before + s.run.fed[m * t..n * t] && S.Sound(s.cut)
  {
    hide S.Payload, S.Sound, Exec, Attached, Aligned;
    AttachedBase(r, t);
    AlwaysUpToDate(r, gen, t, cap, isKeyframe, ops);
    StreamReachesTurns(r, gen, t, cap, isKeyframe, ops);
  }
}
