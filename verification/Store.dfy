/** The shared state of both planes: engines, placement and leader claims,
    stream reservations. Every method is one critical section. */
module Store {
  import opened Common
  import opened Sorting

  type Id = string

  datatype Health = Unknown | Healthy | Unhealthy

  datatype Engine = Engine(
    containerId: Id,
    vpn: string,
    forwarded: bool,
    health: Health,
    draining: bool,
    firstSeen: int,
    lastAssignedAt: int)

  /** A counter that is zero where it is absent. */
  function Count(m: map<string, nat>, k: string): nat {
    if k in m then m[k] else 0
  }

  // ---- placement and leader claims ----

  datatype Claims = Claims(engines: map<Id, Engine>, vpnPending: map<string, nat>, forwardedPending: set<string>)

  const NO_CLAIMS := Claims(map[], map[], {})

  function OnNode(engines: map<Id, Engine>, vpn: string): set<Id> {
    set id | id in engines && engines[id].vpn == vpn
  }

  function Leaders(engines: map<Id, Engine>, vpn: string): set<Id> {
    set id | id in engines && engines[id].vpn == vpn && engines[id].forwarded
  }

  /** Engines and pending claims on a node. */
  function Load(c: Claims, vpn: string): nat {
    |OnNode(c.engines, vpn)| + Count(c.vpnPending, vpn)
  }

  predicate Eligible(c: Claims, limit: int, vpn: string) {
    limit <= 0 || Load(c, vpn) < limit
  }

  /** best is the first of the least loaded eligible candidates. */
  ghost predicate IsChoice(c: Claims, candidates: seq<string>, limit: int, best: string) {
    exists k :: 0 <= k < |candidates| && candidates[k] == best
      && Eligible(c, limit, best)
      && forall j :: 0 <= j < |candidates| && Eligible(c, limit, candidates[j]) ==>
           (if j < k then Load(c, candidates[j]) > Load(c, best) else Load(c, candidates[j]) >= Load(c, best))
  }

  function Claimed(c: Claims, vpn: string): Claims {
    c.(vpnPending := c.vpnPending[vpn := Count(c.vpnPending, vpn) + 1])
  }

  function Unclaimed(c: Claims, vpn: string): Claims {
    if Count(c.vpnPending, vpn) > 0 then c.(vpnPending := c.vpnPending[vpn := Count(c.vpnPending, vpn) - 1]) else c
  }

  function Registered(c: Claims, e: Engine): Claims {
    var c' := c.(
      engines := c.engines[e.containerId := e],
      forwardedPending := if e.forwarded && e.vpn != "" then c.forwardedPending - {e.vpn} else c.forwardedPending);
    if e.containerId !in c.engines && e.vpn != "" then Unclaimed(c', e.vpn) else c'
  }

  function Removed(c: Claims, id: Id): Claims {
    c.(engines := c.engines - {id})
  }

  predicate CanLead(c: Claims, vpn: string) {
    Leaders(c.engines, vpn) == {} && vpn !in c.forwardedPending
  }

  lemma CanLeadMeans(c: Claims, vpn: string)
    ensures CanLead(c, vpn)
      <==> vpn !in c.forwardedPending && forall id :: id in c.engines && c.engines[id].vpn == vpn ==> !c.engines[id].forwarded
  {
    forall id | id in c.engines && c.engines[id].vpn == vpn && c.engines[id].forwarded ensures id in Leaders(c.engines, vpn) {
    }
  }

  function LeaderPending(c: Claims, vpn: string, pending: bool): Claims {
    c.(forwardedPending := if pending then c.forwardedPending + {vpn} else c.forwardedPending - {vpn})
  }

  // ---- stream reservations ----

  datatype Stream = Stream(engine: Id, started: bool)

  datatype Loads = Loads(streamCounts: map<Id, nat>, enginePending: map<Id, nat>, streams: map<string, Stream>)

  const NO_LOADS := Loads(map[], map[], map[])

  /** Running streams and outstanding reservations of an engine. */
  function EngineLoad(l: Loads, id: Id): nat {
    Count(l.streamCounts, id) + Count(l.enginePending, id)
  }

  function Reserved(l: Loads, id: Id): Loads {
    l.(enginePending := l.enginePending[id := Count(l.enginePending, id) + 1])
  }

  function Unreserved(l: Loads, id: Id): Loads {
    if Count(l.enginePending, id) > 0 then l.(enginePending := l.enginePending[id := Count(l.enginePending, id) - 1]) else l
  }

  function Started(l: Loads, stream: string, engine: Id): Loads {
    var l' := l.(streams := l.streams[stream := Stream(engine, true)]);
    if engine == "" then l'
    else Unreserved(l'.(streamCounts := l'.streamCounts[engine := Count(l'.streamCounts, engine) + 1]), engine)
  }

  /** A start, in fields: one more running stream and, if there was any, one
      reservation less, on that engine alone. */
  lemma StartedMeans(l: Loads, stream: string, engine: Id)
    ensures var l' := Started(l, stream, engine);
      l'.streams == l.streams[stream := Stream(engine, true)]
      && (forall d :: Count(l'.streamCounts, d) == Count(l.streamCounts, d) + if d == engine != "" then 1 else 0)
      && (forall d ::
            Count(l'.enginePending, d) ==
            if d == engine != "" && Count(l.enginePending, d) > 0 then Count(l.enginePending, d) - 1
            else Count(l.enginePending, d))
  {
  }

  function Allocating(l: Loads, stream: string): Loads {
    if stream in l.streams then l else l.(streams := l.streams[stream := Stream("", false)])
  }

  /** The stream is given an engine before it starts. */
  function Prebuffering(l: Loads, stream: string, engine: Id): Loads {
    l.(streams := l.streams[stream := Stream(engine, false)])
  }

  function Ended(l: Loads, stream: string): Loads {
    if stream !in l.streams then l
    else
      var engine := l.streams[stream].engine;
      var l' := l.(streams := l.streams - {stream});
      if engine != "" && Count(l'.streamCounts, engine) > 0 then
        l'.(streamCounts := l'.streamCounts[engine := Count(l'.streamCounts, engine) - 1])
      else l'
  }

  function EngineGone(l: Loads, id: Id): Loads {
    l.(streamCounts := l.streamCounts - {id})
  }

  // ---- choosing an engine for a stream ----

  /** The settle delay, in the clock's units per second. */
  const SETTLE: int := 5_000_000_000

  predicate Usable(engines: map<Id, Engine>, l: Loads, maxStreams: int, now: int, id: Id) {
    id in engines
    && !engines[id].draining && engines[id].health == Healthy
    && EngineLoad(l, id) < maxStreams
    && !(EngineLoad(l, id) >= 1 && now - engines[id].lastAssignedAt < SETTLE)
  }

  ghost predicate NoneUsable(engines: map<Id, Engine>, l: Loads, maxStreams: int, now: int) {
    forall id :: !Usable(engines, l, maxStreams, now, id)
  }

  /** What the candidate comparison looks at. */
  datatype Rank = Rank(id: Id, load: int, vpnLoad: int, forwarded: bool, lastAssignedAt: int)

  predicate Better(a: Rank, b: Rank) {
    if a.load != b.load then a.load < b.load
    else if a.vpnLoad != b.vpnLoad then a.vpnLoad < b.vpnLoad
    else if a.forwarded != b.forwarded then a.forwarded
    else a.lastAssignedAt < b.lastAssignedAt
  }

  /** Usable, in fields: healthy, not draining, below the maximum, and idle or
      assigned at least five seconds ago. */
  lemma UsableMeans(engines: map<Id, Engine>, l: Loads, maxStreams: int, now: int)
    ensures forall id :: Usable(engines, l, maxStreams, now, id) <==>
      id in engines
      && var e, load := engines[id], Count(l.streamCounts, id) + Count(l.enginePending, id);
         !e.draining && e.health == Healthy && load < maxStreams && (load == 0 || now - e.lastAssignedAt >= 5_000_000_000)
  {
  }

  /** The comparison, in fields: not behind means the lighter engine, then the one
      on the quieter node, then leaders, then the one assigned longest ago. */
  lemma BetterMeans()
    ensures forall a, b :: !Better(b, a) <==>
      a.load < b.load
      || (a.load == b.load && a.vpnLoad < b.vpnLoad)
      || (a.load == b.load && a.vpnLoad == b.vpnLoad && a.forwarded && !b.forwarded)
      || (a.load == b.load && a.vpnLoad == b.vpnLoad && a.forwarded == b.forwarded && a.lastAssignedAt <= b.lastAssignedAt)
  {
  }

  /** The comparison is a strict weak order, so a sort by it is meaningful. */
  lemma BetterIsStrictWeak()
    ensures StrictWeak(Better)
  {
  }

  /** Sum of engine loads over a set of engines. */
  ghost function TotalLoad(l: Loads, ids: set<Id>): int {
    if ids == {} then 0
    else
      var id :| id in ids;
      EngineLoad(l, id) + TotalLoad(l, ids - {id})
  }

  lemma {:induction false} TotalLoadAdd(l: Loads, ids: set<Id>, x: Id)
    requires x !in ids
    ensures TotalLoad(l, ids + {x}) == TotalLoad(l, ids) + EngineLoad(l, x)
    decreases |ids|
  {
    var all := ids + {x};
    var y :| y in all && TotalLoad(l, all) == EngineLoad(l, y) + TotalLoad(l, all - {y});
    if y == x {
      assert all - {y} == ids;
    } else {
      assert all - {y} == (ids - {y}) + {x};
      TotalLoadAdd(l, ids - {y}, x);
      TotalLoadAdd(l, ids - {y}, y);
      assert (ids - {y}) + {y} == ids;
    }
  }

  /** The load of a node, as the engine choice sees it: zero off VPN. */
  ghost function NodeLoad(engines: map<Id, Engine>, l: Loads, vpn: string): int {
    if vpn == "" then 0 else TotalLoad(l, OnNode(engines, vpn))
  }

  /** The load of a node, engine by engine. */
  lemma NodeLoadMeans(engines: map<Id, Engine>, l: Loads, v: string)
    ensures v == "" || OnNode(engines, v) == {} ==> NodeLoad(engines, l, v) == 0
    ensures forall id :: v != "" && id in engines && engines[id].vpn == v ==>
      NodeLoad(engines, l, v) == Count(l.streamCounts, id) + Count(l.enginePending, id) + NodeLoad(engines - {id}, l, v)
  {
    forall id | v != "" && id in engines && engines[id].vpn == v
      ensures NodeLoad(engines, l, v) == EngineLoad(l, id) + NodeLoad(engines - {id}, l, v)
    {
      assert OnNode(engines - {id}, v) == OnNode(engines, v) - {id};
      assert id in OnNode(engines, v);
      assert (OnNode(engines, v) - {id}) + {id} == OnNode(engines, v);
      TotalLoadAdd(l, OnNode(engines, v) - {id}, id);
    }
  }

  ghost function RankOf(engines: map<Id, Engine>, l: Loads, id: Id): Rank
    requires id in engines
  {
    Rank(id, EngineLoad(l, id), NodeLoad(engines, l, engines[id].vpn), engines[id].forwarded, engines[id].lastAssignedAt)
  }

  lemma ChosenFirst(engines: map<Id, Engine>, l: Loads, maxStreams: int, now: int, sel: Id)
    requires sel in engines
    requires forall id :: Usable(engines, l, maxStreams, now, id) ==> !Better(RankOf(engines, l, id), RankOf(engines, l, sel))
    ensures forall id :: id in engines && Usable(engines, l, maxStreams, now, id) ==>
      var c, e := engines[sel], engines[id];
      var cLoad, load := Count(l.streamCounts, sel) + Count(l.enginePending, sel), Count(l.streamCounts, id) + Count(l.enginePending, id);
      var cNode, node := NodeLoad(engines, l, c.vpn), NodeLoad(engines, l, e.vpn);
      cLoad < load || (cLoad == load && cNode < node)
      || (cLoad == load && cNode == node && c.forwarded && !e.forwarded)
      || (cLoad == load && cNode == node && c.forwarded == e.forwarded && c.lastAssignedAt <= e.lastAssignedAt)
  {
    hide Usable, Better, NodeLoad;
    BetterMeans();
  }

  // ---- the store ----

  class Store {
    var engines: map<Id, Engine>
    var vpnPending: map<string, nat>
    var forwardedPending: set<string>
    var enginePending: map<Id, nat>
    var streamCounts: map<Id, nat>
    var emptyAt: map<Id, int>
    var streams: map<string, Stream>

    function ClaimsView(): Claims
      reads this
    {
      Claims(engines, vpnPending, forwardedPending)
    }

    function LoadsView(): Loads
      reads this
    {
      Loads(streamCounts, enginePending, streams)
    }

    ghost predicate Valid()
      reads this
    {
      forall id :: id in engines ==> engines[id].containerId == id
    }

    constructor ()
      ensures Valid() && ClaimsView() == NO_CLAIMS && LoadsView() == NO_LOADS && emptyAt == map[]
    {
      engines, vpnPending, forwardedPending := map[], map[], {};
      enginePending, streamCounts, emptyAt, streams := map[], map[], map[], map[];
    }

    method AddEngine(e: Engine, now: int)
      requires Valid()
      modifies this`engines, this`vpnPending, this`forwardedPending
      ensures Valid()
      ensures ClaimsView() == Registered(old(ClaimsView()), if e.containerId in old(engines) then e else e.(firstSeen := now))
      ensures engines == old(engines)[e.containerId := if e.containerId in old(engines) then e else e.(firstSeen := now)]
      ensures forwardedPending == old(forwardedPending) - if e.forwarded && e.vpn != "" then {e.vpn} else {}
      ensures forall v ::
        Count(vpnPending, v) ==
          if v == e.vpn != "" && e.containerId !in old(engines) && Count(old(vpnPending), v) > 0 then Count(old(vpnPending), v) - 1
          else Count(old(vpnPending), v)
    {
      var isNew := e.containerId !in engines;
      var entry := if isNew then e.(firstSeen := now) else e;
      engines := engines[e.containerId := entry];
      if e.forwarded && e.vpn != "" {
        forwardedPending := forwardedPending - {e.vpn};
      }
      if isNew && e.vpn != "" && Count(vpnPending, e.vpn) > 0 {
        vpnPending := vpnPending[e.vpn := vpnPending[e.vpn] - 1];
      }
    }

    method RemoveEngine(id: Id) returns (removed: bool)
      requires Valid()
      modifies this`engines, this`emptyAt, this`streamCounts
      ensures Valid() && removed == (id in old(engines))
      ensures removed ==>
        ClaimsView() == Removed(old(ClaimsView()), id) && LoadsView() == EngineGone(old(LoadsView()), id)
        && emptyAt == old(emptyAt) - {id}
      ensures engines == old(engines) - {id}
      ensures removed ==> streamCounts == old(streamCounts) - {id}
      ensures !removed ==> ClaimsView() == old(ClaimsView()) && LoadsView() == old(LoadsView()) && emptyAt == old(emptyAt)
    {
      if id !in engines {
        return false;
      }
      engines := engines - {id};
      emptyAt := emptyAt - {id};
      streamCounts := streamCounts - {id};
      return true;
    }

    /** The inner loop of the placement scan. */
    method CountOnNode(name: string) returns (n: nat)
      ensures n == |OnNode(engines, name)|
    {
      var rest := engines.Keys;
      n := 0;
      ghost var seen: set<Id> := {};
      while rest != {}
        invariant rest <= engines.Keys && seen == (set id | id in OnNode(engines, name) && id !in rest)
        invariant n == |seen|
        decreases rest
      {
        var id :| id in rest;
        rest := rest - {id};
        if engines[id].vpn == name {
          n := n + 1;
          seen := seen + {id};
        }
      }
      assert seen == OnNode(engines, name);
    }

    /** Claims a place on the first least-loaded candidate below the limit. */
    method SelectAndClaimVpn(candidates: seq<string>, effectiveLimit: int) returns (best: string, bestLoad: int)
      requires "" !in candidates
      modifies this`vpnPending
      ensures best == "" ==> ClaimsView() == old(ClaimsView()) && bestLoad == -1
      ensures best == "" <==> forall v :: v in candidates ==> !Eligible(old(ClaimsView()), effectiveLimit, v)
      ensures best != "" ==>
        IsChoice(old(ClaimsView()), candidates, effectiveLimit, best)
        && bestLoad == Load(old(ClaimsView()), best)
        && ClaimsView() == Claimed(old(ClaimsView()), best)
    {
      best, bestLoad := "", -1;
      ghost var at := 0;
      for i := 0 to |candidates|
        invariant ClaimsView() == old(ClaimsView())
        invariant best == "" ==> bestLoad == -1
        invariant best == "" ==> forall j :: 0 <= j < i ==> !Eligible(ClaimsView(), effectiveLimit, candidates[j])
        invariant best != "" ==>
          0 <= at < i && candidates[at] == best && Eligible(ClaimsView(), effectiveLimit, best)
          && bestLoad == Load(ClaimsView(), best)
          && forall j :: 0 <= j < i && Eligible(ClaimsView(), effectiveLimit, candidates[j]) ==>
               (if j < at then Load(ClaimsView(), candidates[j]) > bestLoad else Load(ClaimsView(), candidates[j]) >= bestLoad)
      {
        var name := candidates[i];
        var engineCount := CountOnNode(name);
        var total := engineCount + Count(vpnPending, name);
        if effectiveLimit > 0 && total >= effectiveLimit {
          continue;
        }
        if best == "" || total < bestLoad {
          best := name;
          bestLoad := total;
          at := i;
        }
      }
      if best != "" {
        vpnPending := vpnPending[best := Count(vpnPending, best) + 1];
      }
    }

    method DecrVpnPending(vpn: string)
      modifies this`vpnPending
      ensures forall v ::
        Count(vpnPending, v) ==
        if v == vpn && Count(old(vpnPending), v) > 0 then Count(old(vpnPending), v) - 1 else Count(old(vpnPending), v)
      ensures ClaimsView() == Unclaimed(old(ClaimsView()), vpn)
    {
      if Count(vpnPending, vpn) > 0 {
        vpnPending := vpnPending[vpn := vpnPending[vpn] - 1];
      }
    }

    method SetForwardedPending(vpn: string, pending: bool)
      modifies this`forwardedPending
      ensures forall v :: v in forwardedPending <==> if v == vpn then pending else v in old(forwardedPending)
      ensures ClaimsView() == LeaderPending(old(ClaimsView()), vpn, pending)
    {
      if pending {
        forwardedPending := forwardedPending + {vpn};
      } else {
        forwardedPending := forwardedPending - {vpn};
      }
    }

    /** Takes the leader slot of a node if no leader is registered or pending. */
    method TryClaimForwardedSlot(vpn: string) returns (won: bool)
      modifies this`forwardedPending
      ensures won <==> vpn !in old(forwardedPending) && forall id :: id in engines && engines[id].vpn == vpn ==> !engines[id].forwarded
      ensures forwardedPending == old(forwardedPending) + if won then {vpn} else {}
      ensures won <==> CanLead(old(ClaimsView()), vpn)
      ensures ClaimsView() == if won then LeaderPending(old(ClaimsView()), vpn, true) else old(ClaimsView())
    {
      CanLeadMeans(ClaimsView(), vpn);
      var rest := engines.Keys;
      while rest != {}
        invariant rest <= engines.Keys
        invariant Leaders(engines, vpn) <= rest
        decreases rest
      {
        var id :| id in rest;
        if engines[id].vpn == vpn && engines[id].forwarded {
          assert id in Leaders(engines, vpn);
          return false;
        }
        rest := rest - {id};
      }
      if vpn in forwardedPending {
        return false;
      }
      forwardedPending := forwardedPending + {vpn};
      return true;
    }

    method MarkEngineDraining(id: Id) returns (marked: bool)
      requires Valid()
      modifies this`engines
      ensures Valid()
      ensures marked <==> id in old(engines) && !old(engines)[id].draining
      ensures engines == if marked then old(engines)[id := old(engines)[id].(draining := true)] else old(engines)
    {
      if id !in engines || engines[id].draining {
        return false;
      }
      engines := engines[id := engines[id].(draining := true)];
      return true;
    }

    // ---- streams ----

    /** Step 1 of the engine choice: the load of every VPN node. */
    method NodeLoads() returns (loads: map<string, nat>)
      ensures forall v :: v != "" ==> Count(loads, v) == NodeLoad(engines, LoadsView(), v)
      ensures Count(loads, "") == 0
    {
      loads := map[];
      var rest := engines.Keys;
      while rest != {}
        invariant rest <= engines.Keys && Count(loads, "") == 0
        invariant forall v :: v != "" ==> Count(loads, v) == TotalLoad(LoadsView(), OnNode(engines, v) - rest)
        decreases rest
      {
        var id :| id in rest;
        var v := engines[id].vpn;
        ghost var before := rest;
        rest := rest - {id};
        assert OnNode(engines, v) - rest == (OnNode(engines, v) - before) + {id};
        TotalLoadAdd(LoadsView(), OnNode(engines, v) - before, id);
        assert forall w :: w != v ==> OnNode(engines, w) - rest == OnNode(engines, w) - before;
        if v != "" {
          loads := loads[v := Count(loads, v) + EngineLoad(LoadsView(), id)];
        }
      }
      assert forall v :: OnNode(engines, v) - rest == OnNode(engines, v);
    }

    /** Step 2: the usable engines and what they are compared by. */
    method Candidates(maxStreams: int, now: int, loads: map<string, nat>) returns (cs: seq<Rank>)
      requires forall v :: v != "" ==> Count(loads, v) == NodeLoad(engines, LoadsView(), v)
      requires Count(loads, "") == 0
      ensures forall r :: r in cs ==> Usable(engines, LoadsView(), maxStreams, now, r.id)
      ensures forall r :: r in cs ==> r.id in engines && r == RankOf(engines, LoadsView(), r.id)
      ensures forall id :: Usable(engines, LoadsView(), maxStreams, now, id) ==> RankOf(engines, LoadsView(), id) in cs
      ensures cs == [] ==> NoneUsable(engines, LoadsView(), maxStreams, now)
    {
      cs := [];
      var rest := engines.Keys;
      while rest != {}
        invariant rest <= engines.Keys
        invariant forall r :: r in cs ==> Usable(engines, LoadsView(), maxStreams, now, r.id)
        invariant forall r :: r in cs ==> r.id in engines && r == RankOf(engines, LoadsView(), r.id)
        invariant forall id :: Usable(engines, LoadsView(), maxStreams, now, id) && id !in rest ==>
          RankOf(engines, LoadsView(), id) in cs
        decreases rest
      {
        var id :| id in rest;
        rest := rest - {id};
        var e := engines[id];
        if e.draining || e.health != Healthy {
          continue;
        }
        var load := EngineLoad(LoadsView(), id);
        if load >= maxStreams {
          continue;
        }
        if load >= 1 && now - e.lastAssignedAt < SETTLE {
          continue;
        }
        cs := cs + [Rank(id, load, Count(loads, e.vpn), e.forwarded, e.lastAssignedAt)];
      }
    }

    /** A usable engine that no other usable engine beats, if there is any. */
    method ChooseEngine(maxStreams: int, now: int) returns (chosen: Option<Id>)
      ensures chosen.None? <==> NoneUsable(engines, LoadsView(), maxStreams, now)
      ensures chosen.Some? ==>
        Usable(engines, LoadsView(), maxStreams, now, chosen.value)
        && forall id :: Usable(engines, LoadsView(), maxStreams, now, id) ==>
             !Better(RankOf(engines, LoadsView(), id), RankOf(engines, LoadsView(), chosen.value))
    {
      var loads := NodeLoads();
      var cs := Candidates(maxStreams, now, loads);
      if |cs| == 0 {
        return None;
      }
      BetterIsStrictWeak();
      var sorted := SortSlice(cs, Better);
      SameMembers(sorted, cs);
      var sel := sorted[0].id;
      assert sorted[0] in cs;
      forall id | Usable(engines, LoadsView(), maxStreams, now, id)
        ensures !Better(RankOf(engines, LoadsView(), id), RankOf(engines, LoadsView(), sel))
      {
        assert RankOf(engines, LoadsView(), id) in sorted;
      }
      return Some(sel);
    }

    /** Reserves a place on an engine: healthy, not draining, below the maximum, and
        idle or assigned at least five seconds ago; of these the lightest, then on
        the quietest node, then a leader, then the one assigned longest ago. It
        fails exactly when there is none. */
    method SelectAndClaimEngine(maxStreams: int, now: int) returns (chosen: Option<Id>)
      requires Valid()
      modifies this`engines, this`enginePending
      ensures Valid()
      ensures chosen.None? ==>
        engines == old(engines) && LoadsView() == old(LoadsView())
        && forall id :: id in engines ==>
             var e, load := engines[id], Count(streamCounts, id) + Count(enginePending, id);
             e.draining || e.health != Healthy || load >= maxStreams || (load > 0 && now - e.lastAssignedAt < 5_000_000_000)
      ensures chosen.Some? ==>
        chosen.value in old(engines)
        && var e := old(engines)[chosen.value];
           var load := Count(old(streamCounts), chosen.value) + Count(old(enginePending), chosen.value);
           !e.draining && e.health == Healthy && load < maxStreams
           && (load == 0 || now - e.lastAssignedAt >= 5_000_000_000)
      ensures chosen.Some? ==>
        forall id :: id in old(engines) ==>
          var c, e := old(engines)[chosen.value], old(engines)[id];
          var cLoad := Count(old(streamCounts), chosen.value) + Count(old(enginePending), chosen.value);
          var load := Count(old(streamCounts), id) + Count(old(enginePending), id);
          var cNode, node := NodeLoad(old(engines), old(LoadsView()), c.vpn), NodeLoad(old(engines), old(LoadsView()), e.vpn);
          e.draining || e.health != Healthy || load >= maxStreams || (load > 0 && now - e.lastAssignedAt < 5_000_000_000)
          || cLoad < load || (cLoad == load && cNode < node)
          || (cLoad == load && cNode == node && c.forwarded && !e.forwarded)
          || (cLoad == load && cNode == node && c.forwarded == e.forwarded && c.lastAssignedAt <= e.lastAssignedAt)
      ensures chosen.Some? ==>
        enginePending == old(enginePending)[chosen.value := Count(old(enginePending), chosen.value) + 1]
        && LoadsView() == Reserved(old(LoadsView()), chosen.value)
        && engines == old(engines)[chosen.value := old(engines)[chosen.value].(lastAssignedAt := now)]
    {
      hide Usable, Better, NodeLoad, RankOf;
      chosen := ChooseEngine(maxStreams, now);
      UsableMeans(engines, LoadsView(), maxStreams, now);
      if chosen.None? {
        return;
      }
      var sel := chosen.value;
      ChosenFirst(engines, LoadsView(), maxStreams, now, sel);
      enginePending := enginePending[sel := Count(enginePending, sel) + 1];
      engines := engines[sel := engines[sel].(lastAssignedAt := now)];
    }

    method ReleaseEnginePending(id: Id)
      modifies this`enginePending
      ensures forall e ::
        Count(enginePending, e) ==
        if e == id && Count(old(enginePending), e) > 0 then Count(old(enginePending), e) - 1 else Count(old(enginePending), e)
      ensures LoadsView() == Unreserved(old(LoadsView()), id)
    {
      if Count(enginePending, id) > 0 {
        enginePending := enginePending[id := enginePending[id] - 1];
      }
    }

    /** The key falls back for an absent content id, the container for an absent engine. */
    method OnStreamStarted(contentId: string, key: Option<string>, engineId: Id, containerId: Id)
      modifies this`streams, this`streamCounts, this`enginePending
      ensures LoadsView() == Started(old(LoadsView()),
        if contentId == "" && key.Some? then key.value else contentId,
        if engineId == "" then containerId else engineId)
    {
      var stream := contentId;
      if stream == "" && key.Some? {
        stream := key.value;
      }
      var engine := engineId;
      if containerId != "" && engine == "" {
        engine := containerId;
      }
      streams := streams[stream := Stream(engine, true)];
      if engine != "" {
        streamCounts := streamCounts[engine := Count(streamCounts, engine) + 1];
        if Count(enginePending, engine) > 0 {
          enginePending := enginePending[engine := enginePending[engine] - 1];
        }
      }
    }

    method OnStreamAllocating(contentId: string)
      modifies this`streams
      ensures LoadsView() == Allocating(old(LoadsView()), contentId)
      ensures streams == if contentId in old(streams) then old(streams) else old(streams)[contentId := Stream("", false)]
    {
      if contentId in streams {
        return;
      }
      streams := streams[contentId := Stream("", false)];
    }

    method OnStreamPrebuffering(contentId: string, engineId: Id)
      modifies this`streams
      ensures LoadsView() == Prebuffering(old(LoadsView()), contentId, engineId)
      ensures streams == old(streams)[contentId := Stream(engineId, false)]
    {
      streams := streams[contentId := Stream(engineId, false)];
    }

    /** Ends the stream known under the content id, or else under the alias. */
    method OnStreamEnded(contentId: string, streamId: string)
      modifies this`streams, this`streamCounts
      ensures LoadsView() ==
        if contentId in old(streams) then Ended(old(LoadsView()), contentId)
        else if streamId != "" then Ended(old(LoadsView()), streamId)
        else old(LoadsView())
      ensures var x := if contentId in old(streams) then contentId else streamId;
        streams == old(streams) - (if contentId in old(streams) || streamId != "" then {x} else {})
        && forall d :: Count(streamCounts, d) ==
             if d != "" && Count(old(streamCounts), d) > 0 && x in old(streams) && x !in streams && old(streams)[x].engine == d
             then Count(old(streamCounts), d) - 1 else Count(old(streamCounts), d)
    {
      var id := contentId;
      if id !in streams && streamId != "" {
        id := streamId;
      }
      if id !in streams {
        return;
      }
      var engine := streams[id].engine;
      streams := streams - {id};
      if engine != "" && Count(streamCounts, engine) > 0 {
        streamCounts := streamCounts[engine := streamCounts[engine] - 1];
      }
    }
  }
}
