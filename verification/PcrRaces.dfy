/** The clock scan of a write runs after the ring is unlocked, so a reset can fall
    between storing a chunk and scanning it. Each step below is one critical
    section; every sample is marked with the number of resets before its chunk
    was stored. */
module PcrRaces {
  import opened Common
  import opened TsPackets
  import opened PcrBitrate

  /** A stored chunk that its writer has yet to scan, and its mark. */
  datatype Scan = Scan(chunk: Bytes, bytes: int, mark: nat)

  /** The estimate, the marks of its samples and of its program id, the number of
      resets, and the scans that writers still have to make. */
  datatype State = State(e: Estimate, marks: seq<nat>, pidMark: nat, resets: nat, pending: map<nat, Scan>)

  const INITIAL := State(NO_ESTIMATE, [], 0, 0, map[])

  datatype Event = Store(w: nat, chunk: Bytes, bytes: int) | RunScan(w: nat) | Reset

  predicate Enabled(s: State, ev: Event) {
    match ev
    case Store(w, _, _) => w !in s.pending
    case RunScan(w) => w in s.pending
    case Reset => true
  }

  function ClockOf(chunk: Bytes): Option<Clock> {
    LastClock(SyncScan(chunk, 0))
  }

  /** The marks of the window after an observation. */
  function MarksAfter(e: Estimate, marks: seq<nat>, pid: nat, sample: Sample, mark: nat): seq<nat> {
    if e.pid != 0 && e.pid != pid then marks
    else if Discards(e.window, sample) then [mark]
    else LastN(marks + [mark], WINDOW_SIZE)
  }

  function Scanned(s: State, sc: Scan): State {
    match ClockOf(sc.chunk)
    case None => s
    case Some(clock) =>
      s.(e := ObserveChunk(s.e, sc.chunk, sc.bytes),
         marks := MarksAfter(s.e, s.marks, clock.pid, Sample(sc.bytes, clock.ticks), sc.mark),
         pidMark := if s.e.pid == 0 then sc.mark else s.pidMark)
  }

  function Next(s: State, ev: Event): State
    requires Enabled(s, ev)
  {
    match ev
    case Store(w, chunk, bytes) => s.(pending := s.pending[w := Scan(chunk, bytes, s.resets)])
    case RunScan(w) => Scanned(s, s.pending[w]).(pending := s.pending - {w})
    case Reset => State(NO_ESTIMATE, [], 0, s.resets + 1, s.pending)
  }

  ghost predicate Legal(s: State, evs: seq<Event>) {
    evs == [] || (Legal(s, evs[..|evs| - 1]) && Enabled(Exec(s, evs[..|evs| - 1]), evs[|evs| - 1]))
  }

  ghost function Exec(s: State, evs: seq<Event>): State {
    if evs == [] then s
    else
      var m, ev := Exec(s, evs[..|evs| - 1]), evs[|evs| - 1];
      if Enabled(m, ev) then Next(m, ev) else m
  }

  // ---- what is left behind by a reset ----

  /** Every sample of the window, and the program id, is newer than the last reset. */
  ghost predicate Untainted(s: State) {
    (forall k :: 0 <= k < |s.marks| ==> s.marks[k] == s.resets) && (s.e.pid != 0 ==> s.pidMark == s.resets)
  }

  /** Marks go with samples, and none is from the future. */
  ghost predicate WellMarked(s: State) {
    |s.marks| == |s.e.window| && forall w :: w in s.pending ==> s.pending[w].mark <= s.resets
  }

  /** No writer is about to scan a chunk with a clock. */
  ghost predicate Quiet(s: State) {
    forall w :: w in s.pending ==> ClockOf(s.pending[w].chunk) == None
  }

  /** Whatever is still to be scanned is newer than the last reset or has no clock. */
  ghost predicate NothingStale(s: State) {
    forall w :: w in s.pending ==> s.pending[w].mark == s.resets || ClockOf(s.pending[w].chunk) == None
  }

  ghost predicate Sound(s: State) {
    WellMarked(s) && Untainted(s) && NothingStale(s)
  }

  lemma ScannedMarks(s: State, sc: Scan)
    requires |s.marks| == |s.e.window|
    ensures var s' := Scanned(s, sc);
      |s'.marks| == |s'.e.window| && s'.resets == s.resets && s'.pending == s.pending
      && (Untainted(s) && (sc.mark == s.resets || ClockOf(sc.chunk) == None) ==> Untainted(s'))
  {
    hide Smooth, RawBps, Discards, TickDelta, SyncScan, LastClock;
  }

  lemma StepWellMarked(s: State, ev: Event)
    requires WellMarked(s) && Enabled(s, ev)
    ensures WellMarked(Next(s, ev))
  {
    hide Scanned;
    if ev.RunScan? {
      ScannedMarks(s, s.pending[ev.w]);
    }
  }

  /** A step keeps the books clean, a reset provided that it comes in a quiet moment. */
  lemma StepSound(s: State, ev: Event)
    requires Sound(s) && Enabled(s, ev) && (ev.Reset? ==> Quiet(s))
    ensures Sound(Next(s, ev))
  {
    hide Scanned, ClockOf;
    if ev.RunScan? {
      ScannedMarks(s, s.pending[ev.w]);
    }
  }

  lemma {:induction false} AlwaysWellMarked(s: State, evs: seq<Event>)
    requires WellMarked(s)
    ensures WellMarked(Exec(s, evs))
  {
    hide WellMarked, Next;
    if evs != [] {
      var m, ev := Exec(s, evs[..|evs| - 1]), evs[|evs| - 1];
      AlwaysWellMarked(s, evs[..|evs| - 1]);
      if Enabled(m, ev) {
        StepWellMarked(m, ev);
      }
    }
  }

  /** Every reset of the run comes in a quiet moment. */
  ghost predicate QuietResets(s: State, evs: seq<Event>) {
    evs == []
    || (QuietResets(s, evs[..|evs| - 1])
        && (evs[|evs| - 1].Reset? ==> Quiet(Exec(s, evs[..|evs| - 1]))))
  }

  /** On every run whose resets come in quiet moments, no sample and no program id
      outlives a reset. */
  lemma {:induction false} NothingOutlivesReset(s: State, evs: seq<Event>)
    requires Sound(s) && QuietResets(s, evs)
    ensures Sound(Exec(s, evs))
  {
    hide Sound, Next, Quiet;
    if evs != [] {
      var m, ev := Exec(s, evs[..|evs| - 1]), evs[|evs| - 1];
      NothingOutlivesReset(s, evs[..|evs| - 1]);
      if Enabled(m, ev) {
        StepSound(m, ev);
      }
    }
  }

  lemma InitialSound()
    ensures Sound(INITIAL)
  {
  }

  /** Whatever follows a reset, up to the next, the estimate is of the new stream only. */
  ghost predicate ResetIsClean(s: State) {
    forall evs: seq<Event> :: Legal(Next(s, Reset), evs) && Reset !in evs ==> Untainted(Exec(Next(s, Reset), evs))
  }

  /** A reset is clean exactly when it comes in a quiet moment. */
  lemma ResetCleanExactly(s: State)
    requires WellMarked(s)
    ensures ResetIsClean(s) <==> Quiet(s)
  {
    hide Scanned, ClockOf;
    var s0 := Next(s, Reset);
    if Quiet(s) {
      forall evs: seq<Event> | Legal(s0, evs) && Reset !in evs ensures Untainted(Exec(s0, evs)) {
        NoResetsAreQuiet(s0, evs);
        NothingOutlivesReset(s0, evs);
      }
    } else {
      var w :| w in s.pending && ClockOf(s.pending[w].chunk) != None;
      StaleScanTaints(s0, w);
    }
  }

  lemma {:induction false} NoResetsAreQuiet(s: State, evs: seq<Event>)
    requires Reset !in evs
    ensures QuietResets(s, evs)
  {
    if evs != [] {
      NoResetsAreQuiet(s, evs[..|evs| - 1]);
    }
  }

  /** The late scan itself is such a run: its sample stays in the window. */
  lemma StaleScanTaints(s: State, w: nat)
    requires s.e == NO_ESTIMATE && s.marks == [] && w in s.pending
    requires s.pending[w].mark < s.resets && ClockOf(s.pending[w].chunk) != None
    ensures Legal(s, [RunScan(w)]) && !Untainted(Exec(s, [RunScan(w)]))
    ensures Exec(s, [RunScan(w)]).e.pid == ClockOf(s.pending[w].chunk).value.pid
  {
    hide SyncScan, LastClock;
    assert [RunScan(w)][..0] == [];
    assert Exec(s, []) == s;
    var s' := Scanned(s, s.pending[w]);
    assert Push([], Sample(s.pending[w].bytes, ClockOf(s.pending[w].chunk).value.ticks))
      == [Sample(s.pending[w].bytes, ClockOf(s.pending[w].chunk).value.ticks)];
    assert s'.marks == [s.pending[w].mark] && s'.marks[0] != s'.resets;
    assert Exec(s, [RunScan(w)]) == Next(s, RunScan(w));
  }

  // ---- the program id that a late scan leaves ----

  /** The chunk has no clock under this program id. */
  predicate OtherPid(chunk: Bytes, pid: nat) {
    ClockOf(chunk) == None || ClockOf(chunk).value.pid != pid
  }

  /** All chunks of the new stream, stored or still to come, use other ids. */
  ghost predicate AllOther(s: State, evs: seq<Event>, pid: nat) {
    (forall w :: w in s.pending ==> OtherPid(s.pending[w].chunk, pid))
    && forall ev :: ev in evs && ev.Store? ==> OtherPid(ev.chunk, pid)
  }

  /** Once a late scan has locked the estimate to the old stream's program id, the
      new stream is not measured at all before the next reset. */
  lemma {:induction false} StuckUntilReset(s: State, evs: seq<Event>)
    requires s.e.pid != 0 && Reset !in evs && AllOther(s, evs, s.e.pid)
    ensures Exec(s, evs).e == s.e
    ensures forall w :: w in Exec(s, evs).pending ==> OtherPid(Exec(s, evs).pending[w].chunk, s.e.pid)
  {
    hide SyncScan, LastClock, Smooth, RawBps, Discards, TickDelta;
    if evs != [] {
      StuckUntilReset(s, evs[..|evs| - 1]);
    }
  }
}
