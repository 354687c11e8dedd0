/** The stream ring buffer: a fixed circular array that stands for an
    append-only log of chunks. */
module RingBuffer {
  import opened Common
  import opened Bits
  import opened TsPackets
  import PcrBitrate

  const DEFAULT_SLOTS: nat := 16
  const DEFAULT_CHUNK: nat := PACKET_SIZE * 5644
  const DEFAULT_READ: nat := 10

  // ---- the log a ring stands for ----

  /** Every chunk ever stored, the log length at the last reset, the bytes not
      yet stored, and whether the buffer was stopped. */
  datatype Log = Log(chunks: seq<Bytes>, base: nat, partial: Bytes, stopped: bool)

  /** The whole chunks of t bytes at the front of data. */
  function Chop(data: Bytes, t: nat): seq<Bytes>
    requires t > 0
  {
    if |data| < t then [] else [data[..t]] + Chop(data[t..], t)
  }

  /** What Chop leaves over. */
  function Rest(data: Bytes, t: nat): Bytes
    requires t > 0
  {
    if |data| < t then data else Rest(data[t..], t)
  }

  function Written(v: Log, t: nat, data: Bytes): Log
    requires t > 0
  {
    if v.stopped then v
    else v.(chunks := v.chunks + Chop(v.partial + data, t), partial := Rest(v.partial + data, t))
  }

  function Cleared(v: Log): Log {
    v.(base := |v.chunks|, partial := [])
  }

  /** First index a reader at cursor can still be given. */
  function ReadStart(v: Log, cap: nat, cursor: int): int {
    Max(cursor + 1, Max(|v.chunks| - cap, 0))
  }

  /** A reader at cursor is given something. */
  predicate Readable(v: Log, cap: nat, cursor: int) {
    v.base <= ReadStart(v, cap, cursor) < |v.chunks|
  }

  function ReadLimit(limit: int): nat {
    if limit <= 0 then DEFAULT_READ else limit
  }

  function ReadEnd(v: Log, cap: nat, cursor: int, limit: int): int {
    Min(ReadStart(v, cap, cursor) + ReadLimit(limit), |v.chunks|)
  }

  /** A read, in numbers: it starts at the first index that is after the cursor and
      kept, and gives as many chunks as asked, ten if that is not positive, or as
      many as there are. */
  lemma ReadMeans(v: Log, cap: nat, cursor: int, limit: int)
    ensures var start := ReadStart(v, cap, cursor);
      start >= cursor + 1 && start >= |v.chunks| - cap && start >= 0
      && (start == cursor + 1 || start == |v.chunks| - cap || start == 0)
      && (Readable(v, cap, cursor) <==> v.base <= start < |v.chunks|)
      && (Readable(v, cap, cursor) ==>
            ReadEnd(v, cap, cursor, limit) - start == Min(if limit <= 0 then 10 else limit, |v.chunks| - start))
  {
  }

  // ---- the circular array ----

  /** Chunks and remainder are the bytes, in order. */
  lemma {:induction false} ChopConserves(data: Bytes, t: nat)
    requires t > 0
    ensures Flatten(Chop(data, t)) + Rest(data, t) == data
  {
    if |data| >= t {
      hide Flatten;
      ChopConserves(data[t..], t);
      FlattenCons(data[..t], Chop(data[t..], t));
      Assoc(data[..t], Flatten(Chop(data[t..], t)), Rest(data[t..], t));
    } else {
      assert Flatten(Chop(data, t)) == [];
    }
  }

  lemma {:induction false} ChopSizes(data: Bytes, t: nat)
    requires t > 0
    ensures |Rest(data, t)| < t
    ensures forall i :: 0 <= i < |Chop(data, t)| ==> |Chop(data, t)[i]| == t
  {
    if |data| >= t {
      ChopSizes(data[t..], t);
    }
  }

  /** The remainder of i by cap, written without division. */
  function Wrap(i: nat, cap: nat): (r: nat)
    requires cap > 0
    ensures r < cap
  {
    if i < cap then i else Wrap(i - cap, cap)
  }

  lemma {:induction false} WrapIsModulo(i: nat, cap: nat)
    requires cap > 0
    ensures Wrap(i, cap) == i % cap
  {
    if i >= cap {
      WrapIsModulo(i - cap, cap);
      assert i == ((i - cap) / cap + 1) * cap + (i - cap) % cap;
      ModUnique(i, cap, (i - cap) / cap + 1, (i - cap) % cap);
    } else {
      ModUnique(i, cap, 0, i);
    }
  }

  lemma WrapBack(i: nat, cap: nat)
    requires cap > 0
    ensures i >= cap ==> Wrap(i, cap) == Wrap(i - cap, cap)
  {
  }

  /** Two indices less than one capacity apart share a slot only if equal. */
  lemma {:induction false} SlotsDiffer(i: nat, j: nat, cap: nat)
    requires cap > 0 && i < j < i + cap
    ensures Wrap(i, cap) != Wrap(j, cap)
    decreases i
  {
    if i >= cap {
      SlotsDiffer(i - cap, j - cap, cap);
    }
  }

  lemma CapacityIsPow2(slotCount: int)
    requires slotCount <= 0 || !Gap(slotCount - 1)
    ensures var c := NextPow2(if slotCount <= 0 then DEFAULT_SLOTS else slotCount);
      IsPow2(c) && c >= MIN_SAFE_SLOTS
  {
    hide NextPow2, IsPow2, Gap;
    if slotCount <= 0 {
      NextPow2Least(DEFAULT_SLOTS);
    } else {
      NextPow2ExactWhen(slotCount);
    }
  }

  class RingBuffer {
    const slots: array<Bytes>
    const seqs: array<int>
    const cap: nat
    const mask: nat
    const targetSize: nat
    const pcr: PcrBitrate.Estimator
    var head: nat
    var partial: Bytes
    var stopped: bool
    var generation: nat
    var pcrTotalBytes: nat
    ghost var log: seq<Bytes>
    ghost var base: nat

    ghost predicate Shape()
      reads this`head, this`log, this`base
    {
      IsPow2(cap) && cap > 0 && mask == cap - 1 && targetSize > 0
      && slots.Length == cap && seqs.Length == cap
      && head == |log| && base <= head
    }

    /** Index i is recent and newer than the last reset. */
    ghost predicate Live(i: int)
      reads this`head, this`base
    {
      0 <= i && base <= i < head && head - cap <= i
    }

    /** A live index is in its slot. */
    ghost predicate InSlot(i: int)
      requires Shape()
      reads this`head, this`log, this`base, slots, seqs
    {
      Live(i) ==> seqs[Wrap(i, cap)] == i && slots[Wrap(i, cap)] == log[i]
    }

    /** A slot holds a live index of its own, or nothing. */
    ghost predicate SlotOk(s: int)
      requires Shape()
      reads this`head, this`log, this`base, seqs
    {
      0 <= s < cap ==> seqs[s] == -1 || (Live(seqs[s]) && Wrap(seqs[s], cap) == s)
    }

    ghost predicate Ring()
      reads this`head, this`log, this`base, slots, seqs
    {
      Shape() && (forall i :: InSlot(i)) && (forall s :: SlotOk(s))
    }

    /** Every chunk since the reset has the target size, and they are all counted. */
    ghost predicate Sized()
      requires Shape()
      reads this`head, this`log, this`base, this`pcrTotalBytes
    {
      (forall i :: base <= i < head ==> |log[i]| == targetSize)
      && pcrTotalBytes == |Flatten(log[base..])|
    }

    ghost predicate Valid()
      reads this, slots, seqs, pcr, pcr.samples
    {
      Ring() && Sized() && |partial| < targetSize && pcr.Valid()
    }

    ghost function View(): Log
      reads this
    {
      Log(log, base, partial, stopped)
    }

    constructor (targetChunkSize: nat, slotCount: int)
      requires slotCount <= 0 || !Gap(slotCount - 1)
      ensures Valid() && fresh(slots) && fresh(seqs) && fresh(pcr) && fresh(pcr.samples)
      ensures View() == Log([], 0, [], false)
      ensures targetSize == if targetChunkSize == 0 then DEFAULT_CHUNK else targetChunkSize
      ensures cap == NextPow2(if slotCount <= 0 then DEFAULT_SLOTS else slotCount)
      ensures pcr.View() == PcrBitrate.NO_ESTIMATE && generation == 0
    {
      hide NextPow2, IsPow2, Gap;
      var n := if slotCount <= 0 then DEFAULT_SLOTS else slotCount;
      CapacityIsPow2(slotCount);
      var c := NextPow2(n);
      cap := c;
      mask := c - 1;
      slots := new Bytes[c](_ => []);
      seqs := new int[c](_ => -1);
      targetSize := if targetChunkSize == 0 then DEFAULT_CHUNK else targetChunkSize;
      pcr := new PcrBitrate.Estimator();
      head, partial, stopped, generation, pcrTotalBytes := 0, [], false, 0, 0;
      log, base := [], 0;
    }

    /** The slot the mask picks is the remainder by the capacity. */
    lemma MaskedSlot(i: nat)
      requires Shape()
      ensures BitAnd(i, mask) == Wrap(i, cap)
    {
      WrapIsModulo(i, cap);
      var k: nat :| Pow2(k) == cap;
      MaskIsModulo(i, k);
    }

    /** What the slot of a recent index holds. */
    lemma RecentSlot(i: nat)
      requires Ring() && head - cap <= i < head
      ensures seqs[Wrap(i, cap)] == i <==> base <= i
      ensures base <= i ==> slots[Wrap(i, cap)] == log[i]
    {
      assert InSlot(i) && SlotOk(Wrap(i, cap));
    }

    method StoreChunk(data: Bytes)
      requires Ring() && Sized() && |data| == targetSize
      modifies this`head, this`log, this`pcrTotalBytes, slots, seqs
      ensures Ring() && Sized()
      ensures log == old(log) + [data]
    {
      hide Flatten, IsPow2, Wrap, BitAnd;
      var idx := head;
      MaskedSlot(idx);
      WrapBack(idx, cap);
      head := head + 1;
      var slot := BitAnd(idx, mask);
      slots[slot] := data;
      seqs[slot] := idx;
      pcrTotalBytes := pcrTotalBytes + |data|;
      log := log + [data];
      assert log[base..] == old(log)[base..] + [data];
      FlattenSnoc(old(log)[base..], data);
      forall i ensures InSlot(i) {
        assert old(InSlot(i));
        if Live(i) && i < idx {
          SlotsDiffer(i, idx, cap);
        }
      }
      forall s ensures SlotOk(s) {
        assert old(SlotOk(s));
      }
    }

    /** Stores every whole chunk at the front of data; the last one and the byte
        count right after it are kept for the clock scan. */
    method StoreAll(data: Bytes) returns (written: nat, aligned: Bytes, lastChunk: Bytes, lastChunkBytes: nat)
      requires Ring() && Sized()
      modifies this`head, this`log, this`pcrTotalBytes, slots, seqs
      ensures Ring() && Sized()
      ensures log == old(log) + Chop(data, targetSize) && aligned == Rest(data, targetSize)
      ensures written == |Chop(data, targetSize)|
      ensures written > 0 ==> lastChunk == log[|log| - 1] && lastChunkBytes == pcrTotalBytes
    {
      aligned, lastChunk, lastChunkBytes, written := data, [], 0, 0;
      while |aligned| >= targetSize
        modifies this`head, this`log, this`pcrTotalBytes, slots, seqs
        invariant Ring() && Sized()
        invariant log + Chop(aligned, targetSize) == old(log) + Chop(data, targetSize)
        invariant Rest(aligned, targetSize) == Rest(data, targetSize)
        invariant written == |log| - |old(log)|
        invariant written > 0 ==> lastChunk == log[|log| - 1] && lastChunkBytes == pcrTotalBytes
      {
        var chunk := aligned[..targetSize];
        ghost var stored := log;
        aligned := aligned[targetSize..];
        StoreChunk(chunk);
        assert stored + ([chunk] + Chop(aligned, targetSize)) == log + Chop(aligned, targetSize);
        lastChunk := chunk;
        lastChunkBytes := pcrTotalBytes;
        written := written + 1;
      }
      assert log + Chop(aligned, targetSize) == log;
    }

    /** The storing half of Write: store, keep the rest, then scan the last chunk. */
    method StoreAndScan(combined: Bytes) returns (written: nat)
      requires Valid() && |combined| >= targetSize
      modifies this`head, this`log, this`pcrTotalBytes, this`partial, slots, seqs, pcr, pcr.samples
      ensures Valid() && written > 0
      ensures log == old(log) + Chop(combined, targetSize) && partial == Rest(combined, targetSize)
      ensures written == |log| - |old(log)|
      ensures pcr.View() == PcrBitrate.ObserveChunk(old(pcr.View()), log[|log| - 1], pcrTotalBytes)
    {
      var aligned, lastChunk, lastChunkBytes;
      written, aligned, lastChunk, lastChunkBytes := StoreAll(combined);
      ChopSizes(combined, targetSize);
      partial := aligned;
      pcr.UpdatePcrBitrate(lastChunk, lastChunkBytes);
    }

    /** Appends bytes and stores every chunk that fills up. */
    method Write(data: Bytes) returns (written: nat)
      requires Valid()
      modifies this`head, this`log, this`pcrTotalBytes, this`partial, slots, seqs, pcr, pcr.samples
      ensures Valid()
      ensures View() == Written(old(View()), targetSize, data)
      ensures old(stopped) ==> log == old(log) && partial == old(partial) && pcr.View() == old(pcr.View())
      ensures written == |log| - |old(log)|
      ensures pcr.View() == if written == 0 then old(pcr.View())
                            else PcrBitrate.ObserveChunk(old(pcr.View()), log[|log| - 1], pcrTotalBytes)
    {
      if |data| == 0 {
        assert partial + data == partial;
        return 0;
      }
      if stopped {
        return 0;
      }
      var combined := partial + data;
      if |combined| < targetSize {
        partial := combined;
        return 0;
      }
      written := StoreAndScan(combined);
    }

    /** Index of the newest chunk, -1 if none. */
    method Head() returns (h: int)
      requires Valid()
      ensures h == |View().chunks| - 1
    {
      h := head - 1;
    }

    /** Walks the slots from startIdx; stops at once if the reset has emptied them. */
    method Collect(startIdx: nat, endIdx: nat) returns (chunks: seq<Bytes>, last: int)
      requires Ring() && head - cap <= startIdx < endIdx <= head
      ensures chunks == if base <= startIdx then log[startIdx..endIdx] else []
      ensures last == startIdx + |chunks| - 1
    {
      chunks := [];
      last := startIdx - 1;
      var i := startIdx;
      while i < endIdx
        invariant startIdx <= i <= endIdx
        invariant i > startIdx ==> base <= startIdx
        invariant chunks == log[startIdx..i] && last == i - 1
      {
        MaskedSlot(i);
        RecentSlot(i);
        var slot := BitAnd(i, mask);
        if seqs[slot] != i {
          break;
        }
        assert log[startIdx..i] + [log[i]] == log[startIdx..i + 1];
        chunks := chunks + [slots[slot]];
        last := i;
        i := i + 1;
      }
    }

    /** The slice of the log from ReadStart to ReadEnd, or nothing. */
    method ReadAfter(afterIndex: int, maxChunks: int) returns (chunks: seq<Bytes>, last: int)
      requires Valid()
      ensures Readable(View(), cap, afterIndex) ==>
        var start, end := ReadStart(View(), cap, afterIndex), ReadEnd(View(), cap, afterIndex, maxChunks);
        start < end && chunks == log[start..end] && last == end - 1
      ensures !Readable(View(), cap, afterIndex) ==> chunks == [] && last == afterIndex
    {
      hide Flatten;
      var limit := if maxChunks <= 0 then DEFAULT_READ else maxChunks;
      var newest := head - 1;
      if newest < 0 || afterIndex >= newest {
        return [], afterIndex;
      }
      var oldest := head - cap;
      if oldest < 0 {
        oldest := 0;
      }
      var startIdx := afterIndex + 1;
      if startIdx < oldest {
        startIdx := oldest;
      }
      var endIdx := startIdx + limit;
      if endIdx > head {
        endIdx := head;
      }
      chunks, last := Collect(startIdx, endIdx);
      if |chunks| == 0 {
        return [], afterIndex;
      }
    }

    /** Forgets every stored byte; the log keeps its length. */
    method Reset()
      requires Valid()
      modifies this`partial, this`base, this`pcrTotalBytes, this`generation, slots, seqs, pcr, pcr.samples
      ensures Valid()
      ensures View() == Cleared(old(View()))
      ensures generation == old(generation) + 1
      ensures pcr.View() == PcrBitrate.NO_ESTIMATE
    {
      partial := [];
      for i := 0 to seqs.Length
        modifies slots, seqs
        invariant forall k :: 0 <= k < i ==> seqs[k] == -1
      {
        seqs[i] := -1;
        slots[i] := [];
      }
      pcr.Clear();
      pcrTotalBytes := 0;
      generation := generation + 1;
      base := |log|;
      assert log[base..] == [];
    }

    method Stop()
      requires Valid()
      modifies this`stopped
      ensures Valid() && View() == old(View()).(stopped := true)
    {
      stopped := true;
    }
  }
}
