/** Stream capacity over whole runs: reservations become running streams and the
    load of an engine never exceeds its maximum; and when the running count is
    the number of streams that are really live. */
module Streams {
  import opened Common
  import opened Store

  /** One call on the shared stream state. */
  datatype Event =
    | Claim(engine: Id)                       // SelectAndClaimEngine chose it
    | Drop(engine: Id)                        // a reservation given back
    | Start(stream: string, engine: Id)       // OnStreamStarted
    | Allocate(stream: string)
    | Prebuffer(stream: string, engine: Id)
    | End(stream: string)
    | Gone(engine: Id)                        // the engine was removed

  /** tokens: the reservations handed out and not yet used up, per engine. */
  datatype State = State(loads: Loads, tokens: map<Id, nat>)

  const INITIAL := State(NO_LOADS, map[])

  function Spend(tokens: map<Id, nat>, e: Id): map<Id, nat> {
    tokens[e := if Count(tokens, e) > 0 then Count(tokens, e) - 1 else 0]
  }

  /** A claim is made below the maximum; a start or a give-back uses up one
      outstanding claim of its engine. */
  ghost predicate Enabled(max: nat, s: State, ev: Event) {
    match ev
    case Claim(e) => EngineLoad(s.loads, e) < max
    case Drop(e) => Count(s.tokens, e) > 0
    case Start(_, e) => e == "" || Count(s.tokens, e) > 0
    case _ => true
  }

  function Next(s: State, ev: Event): State {
    match ev
    case Claim(e) => State(Reserved(s.loads, e), s.tokens[e := Count(s.tokens, e) + 1])
    case Drop(e) => State(Unreserved(s.loads, e), Spend(s.tokens, e))
    case Start(x, e) => State(Started(s.loads, x, e), if e == "" then s.tokens else Spend(s.tokens, e))
    case Allocate(x) => s.(loads := Allocating(s.loads, x))
    case Prebuffer(x, e) => s.(loads := Prebuffering(s.loads, x, e))
    case End(x) => s.(loads := Ended(s.loads, x))
    case Gone(e) => s.(loads := EngineGone(s.loads, e))
  }

  function Run(evs: seq<Event>): State {
    if evs == [] then INITIAL else Next(Run(evs[..|evs| - 1]), evs[|evs| - 1])
  }

  /** Every event was allowed when it happened. */
  ghost predicate Legal(max: nat, evs: seq<Event>) {
    evs == [] || (Legal(max, evs[..|evs| - 1]) && Enabled(max, Run(evs[..|evs| - 1]), evs[|evs| - 1]))
  }

  /** The store's choice of an engine is a claim of this kind, and its state after
      it is the one the runs below count with. */
  method ClaimEngine(st: Store, max: nat, now: int, ghost s: State) returns (chosen: Option<Id>)
    requires st.Valid() && s.loads == st.LoadsView()
    modifies st`engines, st`enginePending
    ensures st.Valid()
    ensures chosen.Some? ==> Enabled(max, s, Claim(chosen.value)) && st.LoadsView() == Next(s, Claim(chosen.value)).loads
    ensures chosen.None? ==> st.LoadsView() == s.loads
    ensures chosen.None? ==>
      forall id :: id in st.engines && Enabled(max, s, Claim(id)) ==>
        var e := st.engines[id];
        e.draining || e.health != Healthy || (EngineLoad(s.loads, id) > 0 && now - e.lastAssignedAt < 5_000_000_000)
  {
    chosen := st.SelectAndClaimEngine(max, now);
  }

  // ---- the bound on the load ----

  lemma StepKeepsLoad(max: nat, s: State, ev: Event, e: Id)
    requires Enabled(max, s, ev)
    requires Count(s.loads.enginePending, e) == Count(s.tokens, e) || e == ""
    requires EngineLoad(s.loads, e) <= max
    ensures Count(Next(s, ev).loads.enginePending, e) == Count(Next(s, ev).tokens, e) || e == ""
    ensures EngineLoad(Next(s, ev).loads, e) <= max
  {
  }

  /** On every legal run the reservations counted are the claims outstanding, and
      running streams plus reservations never exceed the maximum. */
  lemma {:induction false} CapacityBound(max: nat, evs: seq<Event>, e: Id)
    requires Legal(max, evs)
    ensures e != "" ==> Count(Run(evs).loads.enginePending, e) == Count(Run(evs).tokens, e)
    ensures EngineLoad(Run(evs).loads, e) <= max
  {
    if evs != [] {
      var n := |evs| - 1;
      CapacityBound(max, evs[..n], e);
      StepKeepsLoad(max, Run(evs[..n]), evs[n], e);
    }
  }

  // ---- counted and live streams ----

  function LiveOn(l: Loads, e: Id): set<string> {
    set x | x in l.streams && l.streams[x] == Stream(e, true)
  }

  /** The running count of every engine is its number of live streams. */
  ghost predicate Exact(l: Loads) {
    forall e :: e != "" ==> Count(l.streamCounts, e) == |LiveOn(l, e)|
  }

  /** x is a started stream of some engine. */
  predicate IsLive(l: Loads, x: string) {
    x in l.streams && l.streams[x].started && l.streams[x].engine != ""
  }

  lemma LiveAfterPut(l: Loads, x: string, y: Stream, e: Id)
    ensures LiveOn(l.(streams := l.streams[x := y]), e)
         == (LiveOn(l, e) - {x}) + if y == Stream(e, true) then {x} else {}
    ensures LiveOn(l.(streams := l.streams - {x}), e) == LiveOn(l, e) - {x}
    ensures x in LiveOn(l, e) <==> x in l.streams && l.streams[x] == Stream(e, true)
  {
  }

  lemma LiveCounts(l: Loads, x: string, y: Stream, e: Id)
    ensures |LiveOn(l.(streams := l.streams[x := y]), e)|
         == |LiveOn(l, e)| - One(x in l.streams && l.streams[x] == Stream(e, true)) + One(y == Stream(e, true))
    ensures |LiveOn(l.(streams := l.streams - {x}), e)|
         == |LiveOn(l, e)| - One(x in l.streams && l.streams[x] == Stream(e, true))
  {
    hide LiveOn;
    LiveAfterPut(l, x, y, e);
    CardChange(LiveOn(l, e), x, y == Stream(e, true));
    CardChange(LiveOn(l, e), x, false);
    assert (LiveOn(l, e) - {x}) + {} == LiveOn(l, e) - {x};
  }

  /** What is live depends on the stream table only. */
  lemma LiveOnlyStreams(a: Loads, b: Loads, e: Id)
    requires a.streams == b.streams
    ensures LiveOn(a, e) == LiveOn(b, e)
  {
  }

  /** Starting a stream keeps the counts exact exactly when it was not live already. */
  lemma StartedExactWhen(l: Loads, x: string, e: Id)
    requires Exact(l) && e != ""
    ensures Exact(Started(l, x, e)) <==> !IsLive(l, x)
  {
    hide LiveOn;
    var l' := Started(l, x, e);
    forall f ensures |LiveOn(l', f)| == |LiveOn(l, f)| - One(x in l.streams && l.streams[x] == Stream(f, true)) + One(e == f) {
      LiveCounts(l, x, Stream(e, true), f);
      LiveOnlyStreams(l', l.(streams := l.streams[x := Stream(e, true)]), f);
    }
    if IsLive(l, x) {
      var f := l.streams[x].engine;
      assert Count(l'.streamCounts, f) != |LiveOn(l', f)|;
    }
  }

  /** Handing a stream to prebuffering keeps them exact exactly when it was not live. */
  lemma PrebufferingExactWhen(l: Loads, x: string, e: Id)
    requires Exact(l)
    ensures Exact(Prebuffering(l, x, e)) <==> !IsLive(l, x)
  {
    hide LiveOn;
    var l' := Prebuffering(l, x, e);
    forall f ensures |LiveOn(l', f)| == |LiveOn(l, f)| - One(x in l.streams && l.streams[x] == Stream(f, true)) {
      LiveCounts(l, x, Stream(e, false), f);
    }
    if IsLive(l, x) {
      var f := l.streams[x].engine;
      assert Count(l'.streamCounts, f) != |LiveOn(l', f)|;
    }
  }

  /** Ending x takes a unit from an engine on which x never started. */
  predicate TakesForeignUnit(l: Loads, x: string) {
    x in l.streams && !l.streams[x].started && l.streams[x].engine != "" && Count(l.streamCounts, l.streams[x].engine) > 0
  }

  /** Ending a stream keeps the counts exact exactly when it was live, or had no
      engine, or its engine counts no stream: a stream that fails while
      prebuffering takes the unit of another one. */
  lemma EndedExactWhen(l: Loads, x: string)
    requires Exact(l)
    ensures Exact(Ended(l, x)) <==> !TakesForeignUnit(l, x)
  {
    hide LiveOn;
    var l' := Ended(l, x);
    forall f ensures |LiveOn(l', f)| == |LiveOn(l, f)| - One(x in l.streams && l.streams[x] == Stream(f, true)) {
      LiveCounts(l, x, Stream("", false), f);
      if x in l.streams {
        LiveOnlyStreams(l', l.(streams := l.streams - {x}), f);
      }
    }
    if TakesForeignUnit(l, x) {
      var f := l.streams[x].engine;
      assert Count(l'.streamCounts, f) != |LiveOn(l', f)|;
    } else if IsLive(l, x) {
      assert |LiveOn(l', l.streams[x].engine)| >= 0;
    }
  }

  /** Removing an engine keeps them exact exactly when it has no live stream. */
  lemma GoneExactWhen(l: Loads, e: Id)
    requires Exact(l) && e != ""
    ensures Exact(EngineGone(l, e)) <==> LiveOn(l, e) == {}
  {
    var l' := EngineGone(l, e);
    forall f ensures LiveOn(l', f) == LiveOn(l, f) {
      LiveOnlyStreams(l', l, f);
    }
    assert Count(l'.streamCounts, e) == 0;
  }

  /** The event meets the condition under which it keeps the counts exact. */
  ghost predicate Clean(l: Loads, ev: Event) {
    match ev
    case Start(x, e) => e != "" && !IsLive(l, x)
    case Prebuffer(x, _) => !IsLive(l, x)
    case End(x) => !TakesForeignUnit(l, x)
    case Gone(e) => e != "" && LiveOn(l, e) == {}
    case _ => true
  }

  ghost predicate AllClean(evs: seq<Event>) {
    evs == [] || (AllClean(evs[..|evs| - 1]) && Clean(Run(evs[..|evs| - 1]).loads, evs[|evs| - 1]))
  }

  lemma CleanStepExact(s: State, ev: Event)
    requires Exact(s.loads) && Clean(s.loads, ev)
    ensures Exact(Next(s, ev).loads)
  {
    hide LiveOn, Exact, IsLive, TakesForeignUnit, Started, Ended, Prebuffering, EngineGone;
    match ev
    case Start(x, e) => StartedExactWhen(s.loads, x, e);
    case Prebuffer(x, e) => PrebufferingExactWhen(s.loads, x, e);
    case End(x) => EndedExactWhen(s.loads, x);
    case Gone(e) => GoneExactWhen(s.loads, e);
    case Claim(e) => SameStreamsExact(s.loads, Reserved(s.loads, e));
    case Drop(e) => SameStreamsExact(s.loads, Unreserved(s.loads, e));
    case Allocate(x) => AllocatingExact(s.loads, x);
  }

  lemma SameStreamsExact(a: Loads, b: Loads)
    requires Exact(a) && a.streams == b.streams && a.streamCounts == b.streamCounts
    ensures Exact(b)
  {
    forall e | e != "" ensures Count(b.streamCounts, e) == |LiveOn(b, e)| {
      LiveOnlyStreams(a, b, e);
    }
  }

  lemma AllocatingExact(l: Loads, x: string)
    requires Exact(l)
    ensures Exact(Allocating(l, x))
  {
    forall e | e != "" ensures Count(Allocating(l, x).streamCounts, e) == |LiveOn(Allocating(l, x), e)| {
      LiveCounts(l, x, Stream("", false), e);
    }
  }

  /** On every legal and clean run, the live streams of an engine are exactly
      those counted, so there are never more than the maximum. */
  lemma {:induction false} LiveStreamsBounded(max: nat, evs: seq<Event>, e: Id)
    requires Legal(max, evs) && AllClean(evs) && e != ""
    ensures |LiveOn(Run(evs).loads, e)| == Count(Run(evs).loads.streamCounts, e) <= max
  {
    CountsExact(evs);
    CapacityBound(max, evs, e);
  }

  lemma {:induction false} CountsExact(evs: seq<Event>)
    requires AllClean(evs)
    ensures Exact(Run(evs).loads)
  {
    hide LiveOn, Clean, Next;
    if evs != [] {
      CountsExact(evs[..|evs| - 1]);
      CleanStepExact(Run(evs[..|evs| - 1]), evs[|evs| - 1]);
    } else {
      assert forall e :: LiveOn(NO_LOADS, e) == {} by { NothingLive(); }
    }
  }

  lemma NothingLive()
    ensures forall e :: LiveOn(NO_LOADS, e) == {}
  {
  }

  /** Without cleanliness the real bound breaks: with at most two streams per
      engine, one failure while prebuffering lets a third stream go live. */
  const OVERCOMMIT: seq<Event> := [
    Claim("e"), Start("a", "e"),
    Claim("e"), Prebuffer("b", "e"), Drop("e"), End("b"),
    Claim("e"), Claim("e"), Start("c", "e"), Start("d", "e")]

  lemma OvercommitPrefix(n: nat)
    requires n < |OVERCOMMIT|
    ensures OVERCOMMIT[..n + 1][..n] == OVERCOMMIT[..n] && OVERCOMMIT[..n + 1][n] == OVERCOMMIT[n]
    ensures Run(OVERCOMMIT[..n + 1]) == Next(Run(OVERCOMMIT[..n]), OVERCOMMIT[n])
    ensures Legal(2, OVERCOMMIT[..n + 1]) <==> Legal(2, OVERCOMMIT[..n]) && Enabled(2, Run(OVERCOMMIT[..n]), OVERCOMMIT[n])
  {
    hide Next, Enabled;
    assert OVERCOMMIT[..n + 1][..n] == OVERCOMMIT[..n];
  }

  lemma TwoMoreClaims() returns (s: State)
    ensures s == Run(OVERCOMMIT[..8]) && Legal(2, OVERCOMMIT[..8])
    ensures s.loads.streams == map["a" := Stream("e", true)] && Count(s.tokens, "e") == 2
  {
    var s7 := OneMoreClaim();
    OvercommitPrefix(7);
    s := Run(OVERCOMMIT[..8]);
  }

  lemma OneMoreClaim() returns (s: State)
    ensures s == Run(OVERCOMMIT[..7]) && Legal(2, OVERCOMMIT[..7])
    ensures s.loads.streams == map["a" := Stream("e", true)]
    ensures Count(s.loads.streamCounts, "e") == 0 && Count(s.loads.enginePending, "e") == 1 && Count(s.tokens, "e") == 1
  {
    var s6 := FirstSixEvents();
    OvercommitPrefix(6);
    s := Run(OVERCOMMIT[..7]);
  }

  lemma LastFourEvents()
    ensures Legal(2, OVERCOMMIT)
    ensures Run(OVERCOMMIT).loads.streams == map["a" := Stream("e", true), "c" := Stream("e", true), "d" := Stream("e", true)]
  {
    var s8 := TwoMoreClaims();
    OvercommitPrefix(8);
    OvercommitPrefix(9);
    assert OVERCOMMIT[..10] == OVERCOMMIT;
  }

  lemma FailedPrebufferOvercommits()
    ensures Legal(2, OVERCOMMIT) && !AllClean(OVERCOMMIT)
    ensures |LiveOn(Run(OVERCOMMIT).loads, "e")| == 3
  {
    hide Legal, Run, AllClean;
    LastFourEvents();
    var l := Run(OVERCOMMIT).loads;
    assert LiveOn(l, "e") == {"a", "c", "d"};
    if AllClean(OVERCOMMIT) {
      LiveStreamsBounded(2, OVERCOMMIT, "e");
    }
  }

  lemma FirstSixEvents() returns (s: State)
    ensures s == Run(OVERCOMMIT[..6]) && Legal(2, OVERCOMMIT[..6])
    ensures s.loads.streams == map["a" := Stream("e", true)]
    ensures Count(s.loads.streamCounts, "e") == 0 && Count(s.loads.enginePending, "e") == 0 && Count(s.tokens, "e") == 0
  {
    assert OVERCOMMIT[..0] == [];
    OvercommitPrefix(0);
    OvercommitPrefix(1);
    OvercommitPrefix(2);
    OvercommitPrefix(3);
    OvercommitPrefix(4);
    OvercommitPrefix(5);
    s := Run(OVERCOMMIT[..6]);
  }
}
