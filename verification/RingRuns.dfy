/** What one reader of a ring sees over whole runs of writes, resets, stops and
    polls. Each step is the state change the ring's own methods promise. */
module RingRuns {
  import opened Common
  import opened TsPackets
  import opened RingBuffer

  datatype Op = Write(data: Bytes) | Reset | Stop | Poll(limit: int)

  /** One chunk handed to the reader; floor is the log length at the reset
      preceding the hand-over. */
  datatype Delivery = Delivery(index: int, chunk: Bytes, floor: nat)

  /** fed is every byte the buffer accepted since its last reset. */
  datatype Run = Run(log: Log, cursor: int, delivered: seq<Delivery>, fed: Bytes)

  function Deliver(v: Log, start: int, end: int): (ds: seq<Delivery>)
    requires 0 <= start <= end <= |v.chunks|
    ensures |ds| == end - start
  {
    seq(end - start, k requires 0 <= k < end - start => Delivery(start + k, v.chunks[start + k], v.base))
  }

  function Step(r: Run, t: nat, cap: nat, op: Op): Run
    requires t > 0
  {
    match op
    case Write(data) => r.(log := Written(r.log, t, data), fed := if r.log.stopped then r.fed else r.fed + data)
    case Reset => r.(log := Cleared(r.log), fed := [])
    case Stop => r.(log := r.log.(stopped := true))
    case Poll(limit) =>
      if Readable(r.log, cap, r.cursor) then
        var start, end := ReadStart(r.log, cap, r.cursor), ReadEnd(r.log, cap, r.cursor, limit);
        r.(cursor := end - 1, delivered := r.delivered + Deliver(r.log, start, end))
      else r
  }

  function Exec(r: Run, t: nat, cap: nat, ops: seq<Op>): Run
    requires t > 0
  {
    if ops == [] then r else Step(Exec(r, t, cap, ops[..|ops| - 1]), t, cap, ops[|ops| - 1])
  }

  /** A new buffer, and a reader placed anywhere at or above -1. */
  function Start(cursor: int): Run {
    Run(Log([], 0, [], false), cursor, [], [])
  }

  // ---- chunking does not depend on how the bytes were split ----

  lemma {:induction false} ChopAppend(a: Bytes, b: Bytes, t: nat)
    requires t > 0
    ensures Chop(a + b, t) == Chop(a, t) + Chop(Rest(a, t) + b, t)
    ensures Rest(a + b, t) == Rest(Rest(a, t) + b, t)
  {
    if |a| >= t {
      ChopAppend(a[t..], b, t);
      assert (a + b)[..t] == a[..t] && (a + b)[t..] == a[t..] + b;
    }
  }

  /** The chunks stored since the last reset, and the partial buffer, are exactly
      those cut from the bytes accepted since then. */
  ghost predicate Chunked(r: Run, t: nat)
    requires t > 0
  {
    r.log.base <= |r.log.chunks| && |r.log.partial| < t
    && r.log.chunks[r.log.base..] == Chop(r.fed, t) && r.log.partial == Rest(r.fed, t)
  }

  lemma StepChunked(r: Run, t: nat, cap: nat, op: Op)
    requires t > 0 && Chunked(r, t)
    ensures Chunked(Step(r, t, cap, op), t)
  {
    if op.Write? && !r.log.stopped {
      hide Chop, Rest;
      var data, r' := op.data, Step(r, t, cap, op);
      ChopAppend(r.fed, data, t);
      ChopSizes(r.log.partial + data, t);
      assert r'.log.chunks[r.log.base..] == r.log.chunks[r.log.base..] + Chop(r.log.partial + data, t);
    }
  }

  /** On every run the stored chunks depend only on the bytes accepted since the
      last reset: not on how those bytes were split into writes. */
  lemma {:induction false} ChunksDependOnlyOnBytes(cursor: int, t: nat, cap: nat, ops: seq<Op>)
    requires t > 0
    ensures Chunked(Exec(Start(cursor), t, cap, ops), t)
  {
    if ops != [] {
      hide Step, Chunked;
      ChunksDependOnlyOnBytes(cursor, t, cap, ops[..|ops| - 1]);
      StepChunked(Exec(Start(cursor), t, cap, ops[..|ops| - 1]), t, cap, ops[|ops| - 1]);
    }
  }

  /** Chunk conservation: stored chunks and the partial buffer are the accepted
      bytes, every chunk has the target size, the partial buffer less. */
  lemma ChunkConservation(cursor: int, t: nat, cap: nat, ops: seq<Op>)
    requires t > 0
    ensures var r := Exec(Start(cursor), t, cap, ops);
      r.log.base <= |r.log.chunks|
      && Flatten(r.log.chunks[r.log.base..]) + r.log.partial == r.fed
      && |r.log.partial| < t
      && forall c :: c in r.log.chunks[r.log.base..] ==> |c| == t
  {
    ChunksDependOnlyOnBytes(cursor, t, cap, ops);
    ChopConserves(Exec(Start(cursor), t, cap, ops).fed, t);
    ChopSizes(Exec(Start(cursor), t, cap, ops).fed, t);
  }

  // ---- what the reader is given ----

  ghost predicate Faithful(r: Run, start: int, cap: nat) {
    && r.log.base <= |r.log.chunks|
    && start <= r.cursor
    && (r.delivered != [] ==> r.delivered[|r.delivered| - 1].index == r.cursor < |r.log.chunks|)
    && (r.delivered == [] ==> r.cursor == start)
    && (forall k :: 0 <= k < |r.delivered| ==> Genuine(r, start, r.delivered[k]))
    && (forall j, k :: 0 <= j < k < |r.delivered| ==> r.delivered[j].index < r.delivered[k].index)
    && (forall i :: start < i <= r.cursor ==> Given(r, i) || i < |r.log.chunks| - cap)
  }

  /** A delivery is of a chunk of the log, newer than the reset before it. */
  ghost predicate Genuine(r: Run, start: int, d: Delivery) {
    start < d.index < |r.log.chunks| && 0 <= d.floor <= d.index && d.chunk == r.log.chunks[d.index]
  }

  ghost predicate Given(r: Run, i: int) {
    exists k :: 0 <= k < |r.delivered| && r.delivered[k].index == i
  }

  lemma PollFaithful(r: Run, start: int, t: nat, cap: nat, limit: int)
    requires t > 0 && start >= -1 && cap > 0 && Faithful(r, start, cap) && Readable(r.log, cap, r.cursor)
    ensures Faithful(Step(r, t, cap, Poll(limit)), start, cap)
  {
    var r' := Step(r, t, cap, Poll(limit));
    var a, b := ReadStart(r.log, cap, r.cursor), ReadEnd(r.log, cap, r.cursor, limit);
    var n := |r.delivered|;
    forall i | start < i <= r'.cursor ensures Given(r', i) || i < |r'.log.chunks| - cap {
      if i <= r.cursor {
        if Given(r, i) {
          var k :| 0 <= k < n && r.delivered[k].index == i;
          assert r'.delivered[k].index == i;
        }
      } else if i >= a {
        assert r'.delivered[n + (i - a)].index == i;
      }
    }
    forall k | 0 <= k < |r'.delivered| ensures Genuine(r', start, r'.delivered[k]) {
      if k < n {
        assert Genuine(r, start, r.delivered[k]);
      }
    }
    forall j, k | 0 <= j < k < |r'.delivered| ensures r'.delivered[j].index < r'.delivered[k].index {
      if j < n {
        assert r.delivered[j].index <= r.cursor by {
          assert j == n - 1 || r.delivered[j].index < r.delivered[n - 1].index;
        }
      }
    }
  }

  lemma OtherFaithful(r: Run, start: int, t: nat, cap: nat, op: Op)
    requires t > 0 && Faithful(r, start, cap) && !op.Poll?
    ensures Faithful(Step(r, t, cap, op), start, cap)
  {
    var r' := Step(r, t, cap, op);
    assert r.log.chunks <= r'.log.chunks;
    forall i | start < i <= r'.cursor ensures Given(r', i) || i < |r'.log.chunks| - cap {
      assert Given(r, i) == Given(r', i);
    }
    forall k | 0 <= k < |r'.delivered| ensures Genuine(r', start, r'.delivered[k]) {
      assert Genuine(r, start, r.delivered[k]);
    }
  }

  /** On every run: delivered indices strictly increase, each delivered chunk is
      the log's and was stored after the reset preceding its delivery, and an
      index the reader passed without getting it has been overwritten. */
  lemma {:induction false} ReaderIsFaithful(start: int, t: nat, cap: nat, ops: seq<Op>)
    requires t > 0 && cap > 0 && start >= -1
    ensures Faithful(Exec(Start(start), t, cap, ops), start, cap)
  {
    if ops != [] {
      ReaderIsFaithful(start, t, cap, ops[..|ops| - 1]);
      var r := Exec(Start(start), t, cap, ops[..|ops| - 1]);
      var op := ops[|ops| - 1];
      if op.Poll? {
        if Readable(r.log, cap, r.cursor) {
          PollFaithful(r, start, t, cap, op.limit);
        }
      } else {
        OtherFaithful(r, start, t, cap, op);
      }
    }
  }

  // ---- readers left behind a reset ----

  /** The reader had not caught up when the buffer was reset. */
  ghost predicate Stranded(r: Run) {
    0 <= r.cursor + 1 < r.log.base <= |r.log.chunks|
  }

  /** A stranded reader is given something exactly when a whole capacity of new
      chunks has been stored, and then resumes at the oldest one kept. */
  lemma StrandedReadable(r: Run, cap: nat)
    requires cap > 0 && Stranded(r)
    ensures Readable(r.log, cap, r.cursor) <==> |r.log.chunks| >= r.log.base + cap
    ensures Readable(r.log, cap, r.cursor) ==> ReadStart(r.log, cap, r.cursor) == |r.log.chunks| - cap
  {
  }

  /** Polling through any run without another reset gives a stranded reader
      nothing for as long as fewer than cap chunks have been stored. */
  lemma {:induction false} StrandedGetsNothing(r: Run, t: nat, cap: nat, ops: seq<Op>)
    requires t > 0 && cap > 0 && Stranded(r) && (forall op :: op in ops ==> !op.Reset?)
    ensures var r' := Exec(r, t, cap, ops);
      r'.log.base == r.log.base && |r.log.chunks| <= |r'.log.chunks|
      && (|r'.log.chunks| < r.log.base + cap ==> r'.delivered == r.delivered && r'.cursor == r.cursor)
  {
    if ops != [] {
      StrandedGetsNothing(r, t, cap, ops[..|ops| - 1]);
      var m := Exec(r, t, cap, ops[..|ops| - 1]);
      if |m.log.chunks| < r.log.base + cap {
        StrandedReadable(m, cap);
      }
    }
  }

  /** The reader is not behind the last reset. */
  ghost predicate Level(r: Run) {
    0 <= r.log.base <= r.cursor + 1 <= |r.log.chunks|
  }

  /** A reader that had caught up at a reset is not stranded by it, nor by any run
      without another: it is given something exactly when something is unread,
      and the very next chunk unless that has been overwritten. */
  lemma {:induction false} CaughtUpReaderContinues(r: Run, t: nat, cap: nat, ops: seq<Op>)
    requires t > 0 && cap > 0 && Level(r) && forall op :: op in ops ==> !op.Reset?
    ensures var r' := Exec(r, t, cap, ops);
      Level(r') && r'.log.base == r.log.base
      && (Readable(r'.log, cap, r'.cursor) <==> r'.cursor + 1 < |r'.log.chunks|)
      && ReadStart(r'.log, cap, r'.cursor) == Max(r'.cursor + 1, |r'.log.chunks| - cap)
  {
    if ops != [] {
      CaughtUpReaderContinues(r, t, cap, ops[..|ops| - 1]);
    }
  }

  /** Which side of a reset a reader falls on: level exactly when it had caught up. */
  lemma ResetStrandsExactly(r: Run, t: nat, cap: nat)
    requires t > 0 && -1 <= r.cursor < |r.log.chunks|
    ensures var r' := Step(r, t, cap, Reset);
      (Level(r') <==> r.cursor == |r.log.chunks| - 1) && (Stranded(r') <==> !Level(r'))
  {
  }
}
