/** Port exclusivity over whole runs of allocations, failures, start events, releases
    and containers found running. Each step is the change the allocator's methods promise. */
module PortRuns {
  import opened Ports

  type Id = int

  /** An engine whose ports have not been released. */
  datatype Held = Held(vpn: string, info: PortsInfo)

  datatype State = State(pools: Pools, held: map<Id, Held>)

  const INITIAL := State(EMPTY, map[])

  /** All engines are behind VPNs, or none is. */
  predicate InMode(behindVpn: bool, vpn: string) {
    behindVpn <==> vpn != ""
  }

  ghost predicate Allocates(cfg: Config, behindVpn: bool, s: State, s': State, id: Id, vpn: string, map_: bool, info: PortsInfo) {
    InMode(behindVpn, vpn) && id !in s.held
    && AllocationOk(cfg, Ensured(cfg, s.pools, vpn), s'.pools, vpn, map_, info)
    && s'.held == s.held[id := Held(vpn, info)]
  }

  ghost predicate Fails(cfg: Config, behindVpn: bool, s: State, s': State, vpn: string, hostNext: int) {
    var before := Ensured(cfg, s.pools, vpn);
    InMode(behindVpn, vpn) && CursorOk(hostNext, cfg.host)
    && s'.pools == before.(http := before.http - FailureUnmarks(cfg, hostNext, before, vpn))
    && s'.held == s.held
  }

  ghost predicate Starts(cfg: Config, s: State, s': State, id: Id) {
    id in s.held
    && s'.pools == Noted(cfg, s.pools, LabelsOf(s.held[id].vpn, s.held[id].info))
    && s'.held == s.held
  }

  ghost predicate Releases(s: State, s': State, id: Id) {
    id in s.held
    && s'.pools == Forgotten(s.pools, LabelsOf(s.held[id].vpn, s.held[id].info))
    && s'.held == s.held - {id}
  }

  /** A running container that no engine here stands for is found: its labels are
      noted, and from then on it holds its ports. */
  ghost predicate Adopts(cfg: Config, behindVpn: bool, s: State, s': State, id: Id, vpn: string, info: PortsInfo) {
    InMode(behindVpn, vpn) && id !in s.held && (vpn != "" ==> info.hostHttps == 0)
    && s'.pools == Noted(cfg, s.pools, LabelsOf(vpn, info))
    && s'.held == s.held[id := Held(vpn, info)]
  }

  /** Nobody holds a port of the found container. */
  ghost predicate Fits(cfg: Config, s: State, vpn: string, info: PortsInfo) {
    forall a :: a in s.held ==> Apart(Ensured(cfg, s.pools, vpn), Held(vpn, info), s.held[a])
  }

  ghost predicate Next(cfg: Config, behindVpn: bool, s: State, s': State) {
    || (exists id, vpn, map_, info :: Allocates(cfg, behindVpn, s, s', id, vpn, map_, info))
    || (exists vpn, hostNext :: Fails(cfg, behindVpn, s, s', vpn, hostNext))
    || (exists id :: Starts(cfg, s, s', id))
    || (exists id :: Releases(s, s', id))
    || (exists id, vpn, info :: Adopts(cfg, behindVpn, s, s', id, vpn, info) && Fits(cfg, s, vpn, info))
  }

  ghost predicate Behavior(cfg: Config, behindVpn: bool, trace: seq<State>) {
    |trace| > 0 && trace[0] == INITIAL
    && forall i :: 0 <= i < |trace| - 1 ==> Next(cfg, behindVpn, trace[i], trace[i + 1])
  }

  // ---- what is held, and from where ----

  /** The ports an engine holds from its main pool: host ports, or its node's. */
  function Main(h: Held): set<int> {
    NonZero(h.info.hostHttp) + NonZero(h.info.hostApi) + NonZero(h.info.hostHttps)
  }

  /** Both engines draw from one pool. */
  predicate SamePool(p: Pools, a: Held, b: Held) {
    a.vpn == "" || PoolOf(p, a.vpn) == PoolOf(p, b.vpn)
  }

  /** No two held engines share a port of a pool. */
  ghost predicate Exclusive(s: State) {
    forall a, b :: a in s.held && b in s.held && a != b ==> Apart(s.pools, s.held[a], s.held[b])
  }

  ghost predicate Apart(p: Pools, a: Held, b: Held) {
    NonZero(a.info.containerHttps) !! NonZero(b.info.containerHttps)
    && (SamePool(p, a, b) ==> Main(a) !! Main(b))
  }

  /** A held engine's ports are marked where they came from. */
  ghost predicate Backed(cfg: Config, behindVpn: bool, p: Pools, h: Held) {
    InMode(behindVpn, h.vpn) && Settled(cfg, p, h.vpn)
    && (h.vpn != "" ==> h.info.hostHttps == 0)
    && Main(h) <= MainUsed(p, h.vpn)
    && NonZero(h.info.containerHttps) <= p.https
  }

  ghost predicate Inv(cfg: Config, behindVpn: bool, s: State) {
    SlotsOk(cfg, s.pools) && Exclusive(s)
    && forall a :: a in s.held ==> Backed(cfg, behindVpn, s.pools, s.held[a])
  }

  // ---- pools of settled nodes ----

  /** What a range assignment does to the pool of a settled node: nothing. */
  lemma EnsuredKeepsBacked(cfg: Config, behindVpn: bool, p: Pools, vpn: string, h: Held)
    requires SlotsOk(cfg, p) && Backed(cfg, behindVpn, p, h)
    ensures Backed(cfg, behindVpn, Ensured(cfg, p, vpn), h)
  {
    SettledPoolNeverMoves(cfg, p, h.vpn, vpn);
    FirstSlotFree(p, |cfg.slots|, 0);
  }

  lemma EnsuredKeepsSharing(cfg: Config, behindVpn: bool, p: Pools, vpn: string, a: Held, b: Held)
    requires SlotsOk(cfg, p) && Backed(cfg, behindVpn, p, a) && Backed(cfg, behindVpn, p, b)
    ensures SamePool(Ensured(cfg, p, vpn), a, b) <==> SamePool(p, a, b)
  {
    SettledPoolNeverMoves(cfg, p, a.vpn, vpn);
    SettledPoolNeverMoves(cfg, p, b.vpn, vpn);
  }

  lemma EnsuredKeepsInv(cfg: Config, behindVpn: bool, s: State, vpn: string)
    requires Inv(cfg, behindVpn, s)
    ensures Inv(cfg, behindVpn, s.(pools := Ensured(cfg, s.pools, vpn)))
  {
    hide Ensured, Backed, SlotsOk, SamePool, Main;
    EnsuredKeepsSlots(cfg, s.pools, vpn);
    var p' := Ensured(cfg, s.pools, vpn);
    forall a | a in s.held ensures Backed(cfg, behindVpn, p', s.held[a]) {
      EnsuredKeepsBacked(cfg, behindVpn, s.pools, vpn, s.held[a]);
    }
    forall a, b | a in s.held && b in s.held && a != b ensures Apart(p', s.held[a], s.held[b]) {
      assert Apart(s.pools, s.held[a], s.held[b]);
      EnsuredKeepsSharing(cfg, behindVpn, s.pools, vpn, s.held[a], s.held[b]);
    }
  }

  /** Two settled nodes use the same marks exactly when they share a pool. */
  lemma PoolDecidesMarks(cfg: Config, p: Pools, v: string, w: string)
    requires SlotsOk(cfg, p) && v != "" && w != ""
    ensures PoolOf(p, v) == PoolOf(p, w) ==> (v == w || (v !in p.ranges && w !in p.ranges))
    ensures PoolOf(p, v) != PoolOf(p, w) ==> v != w && (v in p.ranges || w in p.ranges)
  {
  }

  // ---- the steps keep the invariant ----

  /** After marking, what was backed is backed. */
  lemma MarkKeepsBacked(cfg: Config, behindVpn: bool, p: Pools, vpn: string, main: set<int>, http: set<int>, https: set<int>, h: Held)
    requires Backed(cfg, behindVpn, p, h)
    ensures Backed(cfg, behindVpn, Marked(p, vpn, main, http, https), h)
  {
  }

  lemma MarkKeepsSlots(cfg: Config, p: Pools, vpn: string, main: set<int>, http: set<int>, https: set<int>)
    requires SlotsOk(cfg, p)
    ensures SlotsOk(cfg, Marked(p, vpn, main, http, https))
    ensures Marked(p, vpn, main, http, https).slots == p.slots
  {
  }

  lemma FreshIsBacked(cfg: Config, behindVpn: bool, p: Pools, p': Pools, vpn: string, map_: bool, info: PortsInfo)
    requires SlotsOk(cfg, p) && InMode(behindVpn, vpn) && Settled(cfg, p, vpn)
    requires AllocationOk(cfg, p, p', vpn, map_, info)
    ensures Backed(cfg, behindVpn, p', Held(vpn, info))
  {
    var h := Held(vpn, info);
    assert info.containerHttps in p'.https;
    assert Main(h) <= MainPorts(info, vpn == "" && map_);
    assert MainUsed(p', vpn) == MainUsed(p, vpn) + MainPorts(info, vpn == "" && map_);
  }

  /** A new engine shares no port with one already backed. */
  lemma FreshIsApart(cfg: Config, behindVpn: bool, p: Pools, p': Pools, vpn: string, map_: bool, info: PortsInfo, h: Held)
    requires SlotsOk(cfg, p) && Backed(cfg, behindVpn, p, h) && InMode(behindVpn, vpn)
    requires AllocationOk(cfg, p, p', vpn, map_, info)
    ensures Apart(p', Held(vpn, info), h) && Apart(p', h, Held(vpn, info))
  {
    hide SlotsOk, Free, MainFree, NonZero, Main;
    var f := Held(vpn, info);
    FreshPorts(cfg, p, p', vpn, map_, info);
    UnmarkedApart(info.containerHttps, h.info.containerHttps, p.https);
    SharingNeedsSlots(p, p', f, h);
    if SamePool(p, f, h) && vpn != "" {
      PoolDecidesMarks(cfg, p, vpn, h.vpn);
      assert MainUsed(p, vpn) == MainUsed(p, h.vpn);
    }
    if SamePool(p, f, h) {
      assert MainUsed(p, vpn) == MainUsed(p, h.vpn);
      PartsApart(Main(f), Main(h), MainUsed(p, vpn));
    }
    ApartBothWays(p', f, h, behindVpn);
  }

  lemma UnmarkedApart(a: int, b: int, marked: set<int>)
    requires a !in marked && NonZero(b) <= marked
    ensures NonZero(a) !! NonZero(b)
  {
  }

  lemma PartsApart(a: set<int>, b: set<int>, c: set<int>)
    requires a !! c && b <= c
    ensures a !! b
  {
  }

  /** The ports of a new engine were free. */
  lemma FreshPorts(cfg: Config, p: Pools, p': Pools, vpn: string, map_: bool, info: PortsInfo)
    requires AllocationOk(cfg, p, p', vpn, map_, info)
    ensures info.containerHttps !in p.https && Main(Held(vpn, info)) !! MainUsed(p, vpn) && p'.slots == p.slots
  {
    hide MainUsed, Free;
    FreeIsFree(cfg, p, vpn);
    assert Main(Held(vpn, info)) <= MainPorts(info, vpn == "" && map_);
  }

  lemma AllocateKeepsInv(cfg: Config, behindVpn: bool, s: State, s': State, id: Id, vpn: string, map_: bool, info: PortsInfo)
    requires Inv(cfg, behindVpn, s) && Allocates(cfg, behindVpn, s, s', id, vpn, map_, info)
    ensures Inv(cfg, behindVpn, s')
  {
    hide Ensured, Backed, SlotsOk, SamePool, Main, Marked, MainFree, Free;
    EnsuredKeepsInv(cfg, behindVpn, s, vpn);
    EnsuredKeepsSlots(cfg, s.pools, vpn);
    var p := Ensured(cfg, s.pools, vpn);
    var mapped := vpn == "" && map_;
    var http := if vpn == "" then {info.hostHttp} else {};
    MarkKeepsSlots(cfg, p, vpn, MainPorts(info, mapped), http, {info.containerHttps});
    FreshIsBacked(cfg, behindVpn, p, s'.pools, vpn, map_, info);
    forall a | a in s'.held ensures Backed(cfg, behindVpn, s'.pools, s'.held[a]) {
      if a != id {
        MarkKeepsBacked(cfg, behindVpn, p, vpn, MainPorts(info, mapped), http, {info.containerHttps}, s.held[a]);
      }
    }
    forall a, b | a in s'.held && b in s'.held && a != b ensures Apart(s'.pools, s'.held[a], s'.held[b]) {
      if a != id && b != id {
        assert Apart(p, s.held[a], s.held[b]);
        SharingNeedsSlots(p, s'.pools, s.held[a], s.held[b]);
      } else {
        FreshIsApart(cfg, behindVpn, p, s'.pools, vpn, map_, info, s'.held[if a == id then b else a]);
      }
    }
  }

  /** Whether two engines share a pool depends only on the slot assignment. */
  lemma SharingNeedsSlots(p: Pools, p': Pools, a: Held, b: Held)
    requires p'.slots == p.slots
    ensures SamePool(p', a, b) == SamePool(p, a, b)
  {
  }

  /** Steps that neither assign a slot nor take a held mark away keep the invariant. */
  lemma BackedKeepsInv(cfg: Config, behindVpn: bool, s: State, s': State)
    requires Inv(cfg, behindVpn, s) && SlotsOk(cfg, s'.pools) && s'.pools.slots == s.pools.slots
    requires s'.held.Keys <= s.held.Keys && forall a :: a in s'.held ==> s'.held[a] == s.held[a]
    requires forall a :: a in s'.held ==> Backed(cfg, behindVpn, s'.pools, s'.held[a])
    ensures Inv(cfg, behindVpn, s')
  {
    hide Backed, SlotsOk, SamePool, Main;
    forall a, b | a in s'.held && b in s'.held && a != b ensures Apart(s'.pools, s'.held[a], s'.held[b]) {
      assert Apart(s.pools, s.held[a], s.held[b]);
      SharingNeedsSlots(s.pools, s'.pools, s.held[a], s.held[b]);
    }
  }

  lemma FailKeepsInv(cfg: Config, behindVpn: bool, s: State, s': State, vpn: string, hostNext: int)
    requires Inv(cfg, behindVpn, s) && Fails(cfg, behindVpn, s, s', vpn, hostNext)
    ensures Inv(cfg, behindVpn, s')
  {
    hide Ensured, FailureUnmarks;
    EnsuredKeepsInv(cfg, behindVpn, s, vpn);
    var m := s.(pools := Ensured(cfg, s.pools, vpn));
    assert s'.pools == m.pools.(http := s'.pools.http);
    forall a | a in s'.held ensures Backed(cfg, behindVpn, s'.pools, s'.held[a]) {
      assert Backed(cfg, behindVpn, m.pools, m.held[a]);
    }
    BackedKeepsInv(cfg, behindVpn, m, s');
  }

  lemma NotedBacked(cfg: Config, behindVpn: bool, p: Pools, l: Labels, h: Held)
    requires SlotsOk(cfg, p) && Backed(cfg, behindVpn, p, h) && Settled(cfg, p, l.vpn)
    ensures Backed(cfg, behindVpn, Noted(cfg, p, l), h)
    ensures SlotsOk(cfg, Noted(cfg, p, l)) && Noted(cfg, p, l).slots == p.slots
  {
    var p1 := NotedFixed(p, l);
    FirstSlotFree(p1, |cfg.slots|, 0);
    assert Ensured(cfg, p1, l.vpn) == p1;
  }

  lemma StartKeepsInv(cfg: Config, behindVpn: bool, s: State, s': State, id: Id)
    requires Inv(cfg, behindVpn, s) && Starts(cfg, s, s', id)
    ensures Inv(cfg, behindVpn, s')
  {
    hide Noted, SlotsOk;
    var l := LabelsOf(s.held[id].vpn, s.held[id].info);
    forall a | a in s'.held ensures Backed(cfg, behindVpn, s'.pools, s'.held[a]) {
      NotedBacked(cfg, behindVpn, s.pools, l, s.held[a]);
    }
    NotedBacked(cfg, behindVpn, s.pools, l, s.held[id]);
    BackedKeepsInv(cfg, behindVpn, s, s');
  }

  /** Releasing one engine takes no mark of another away: its ports go back to
      the very pool they came from. */
  lemma ReleaseLeavesOthers(cfg: Config, behindVpn: bool, p: Pools, g: Held, h: Held)
    requires SlotsOk(cfg, p) && Backed(cfg, behindVpn, p, g) && Backed(cfg, behindVpn, p, h) && Apart(p, g, h)
    ensures Backed(cfg, behindVpn, Forgotten(p, LabelsOf(g.vpn, g.info)), h)
  {
    var l := LabelsOf(g.vpn, g.info);
    var p' := Forgotten(p, l);
    if g.vpn != "" {
      PoolDecidesMarks(cfg, p, g.vpn, h.vpn);
      assert NonZero(l.hostHttp) + NonZero(l.hostApi) <= Main(g);
    } else {
      assert p'.host >= p.host - Main(g);
    }
  }

  lemma ForgottenKeepsSlots(cfg: Config, p: Pools, l: Labels)
    requires SlotsOk(cfg, p)
    ensures SlotsOk(cfg, Forgotten(p, l)) && Forgotten(p, l).slots == p.slots
  {
  }

  lemma ReleaseKeepsInv(cfg: Config, behindVpn: bool, s: State, s': State, id: Id)
    requires Inv(cfg, behindVpn, s) && Releases(s, s', id)
    ensures Inv(cfg, behindVpn, s')
  {
    hide Forgotten, SlotsOk, Backed, Apart;
    ForgottenKeepsSlots(cfg, s.pools, LabelsOf(s.held[id].vpn, s.held[id].info));
    forall a | a in s'.held ensures Backed(cfg, behindVpn, s'.pools, s'.held[a]) {
      assert Apart(s.pools, s.held[id], s.held[a]);
      ReleaseLeavesOthers(cfg, behindVpn, s.pools, s.held[id], s.held[a]);
    }
    BackedKeepsInv(cfg, behindVpn, s, s');
  }

  // ---- containers found running ----

  /** More marks in the same pools take no backing away. */
  lemma GrownKeepsBacked(cfg: Config, behindVpn: bool, p: Pools, t: Pools, h: Held)
    requires Backed(cfg, behindVpn, p, h) && t.slots == p.slots && t.ranges.Keys == p.ranges.Keys
    requires p.host <= t.host && p.https <= t.https && p.gluetun <= t.gluetun
    requires forall v :: v in p.ranges ==> p.ranges[v] <= t.ranges[v]
    ensures Backed(cfg, behindVpn, t, h)
  {
    assert MainUsed(p, h.vpn) <= MainUsed(t, h.vpn);
  }

  lemma NotedGrows(cfg: Config, p: Pools, l: Labels)
    requires SlotsOk(cfg, p)
    ensures var m, t := Ensured(cfg, p, l.vpn), Noted(cfg, p, l);
      t.slots == m.slots && t.ranges.Keys == m.ranges.Keys && SlotsOk(cfg, t)
      && m.host <= t.host && m.https <= t.https && m.gluetun <= t.gluetun
      && forall v :: v in m.ranges ==> m.ranges[v] <= t.ranges[v]
  {
    NotedMarks(cfg, p, l);
    EnsuredKeepsSlots(cfg, p, l.vpn);
    hide Noted;
  }

  lemma FoundIsBacked(cfg: Config, behindVpn: bool, p: Pools, vpn: string, info: PortsInfo)
    requires SlotsOk(cfg, p) && InMode(behindVpn, vpn) && (vpn != "" ==> info.hostHttps == 0)
    ensures Backed(cfg, behindVpn, Noted(cfg, p, LabelsOf(vpn, info)), Held(vpn, info))
  {
    var l := LabelsOf(vpn, info);
    EnsuredKeepsSlots(cfg, p, vpn);
    NotedMarks(cfg, p, l);
    NotedGrows(cfg, p, l);
    hide Noted, NonZero;
    assert vpn != "" ==> NonZero(info.hostHttps) == {} by { NonZeroMeans(info.hostHttps); }
  }

  /** Noting a found container backs its ports, and every other holding stays
      backed. No port is then shared exactly when it fits. */
  lemma AdoptKeepsExactly(cfg: Config, behindVpn: bool, s: State, s': State, id: Id, vpn: string, info: PortsInfo)
    requires Inv(cfg, behindVpn, s) && Adopts(cfg, behindVpn, s, s', id, vpn, info)
    ensures forall a :: a in s'.held ==> Backed(cfg, behindVpn, s'.pools, s'.held[a])
    ensures Exclusive(s') <==> Fits(cfg, s, vpn, info)
    ensures Inv(cfg, behindVpn, s') <==> Fits(cfg, s, vpn, info)
  {
    hide Ensured, Backed, SlotsOk, SamePool, Main, Noted;
    var p := Ensured(cfg, s.pools, vpn);
    EnsuredKeepsInv(cfg, behindVpn, s, vpn);
    NotedGrows(cfg, s.pools, LabelsOf(vpn, info));
    FoundIsBacked(cfg, behindVpn, s.pools, vpn, info);
    forall a | a in s'.held ensures Backed(cfg, behindVpn, s'.pools, s'.held[a]) {
      if a != id {
        GrownKeepsBacked(cfg, behindVpn, p, s'.pools, s.held[a]);
      }
    }
    forall a, b | a in s'.held && b in s'.held && a != b
      ensures Apart(s'.pools, s'.held[a], s'.held[b]) <==> Apart(p, s'.held[a], s'.held[b])
      ensures a != id && b != id ==> Apart(p, s'.held[a], s'.held[b])
    {
      SharingNeedsSlots(p, s'.pools, s'.held[a], s'.held[b]);
      if a != id && b != id {
        assert Apart(p, s.held[a], s.held[b]);
      }
    }
    var f := Held(vpn, info);
    forall a | a in s.held ensures Apart(p, s.held[a], f) <==> Apart(p, f, s.held[a]) {
      BackedMode(cfg, behindVpn, s.pools, s.held[a]);
      ApartBothWays(p, s.held[a], f, behindVpn);
    }
    if Exclusive(s') {
      forall a | a in s.held ensures Apart(p, f, s.held[a]) {
        assert Apart(s'.pools, s'.held[id], s'.held[a]);
      }
    }
  }

  lemma BackedMode(cfg: Config, behindVpn: bool, p: Pools, h: Held)
    requires Backed(cfg, behindVpn, p, h)
    ensures InMode(behindVpn, h.vpn)
  {
  }

  lemma ApartBothWays(p: Pools, a: Held, b: Held, behindVpn: bool)
    requires InMode(behindVpn, a.vpn) && InMode(behindVpn, b.vpn)
    ensures Apart(p, a, b) <==> Apart(p, b, a)
  {
  }

  /** While an engine holds its ports, found or allocated, no allocation gives one
      of them to another in its pool. */
  lemma HeldNeverGivenOut(cfg: Config, behindVpn: bool, trace: seq<State>, i: nat, held: Id,
                          id: Id, vpn: string, map_: bool, info: PortsInfo)
    requires Behavior(cfg, behindVpn, trace) && i < |trace| - 1 && held in trace[i].held
    requires Allocates(cfg, behindVpn, trace[i], trace[i + 1], id, vpn, map_, info)
    ensures var h := trace[i].held[held];
      info.containerHttps == 0 || info.containerHttps != h.info.containerHttps
    ensures var h := trace[i].held[held];
      (vpn == "" || PoolOf(trace[i + 1].pools, vpn) == PoolOf(trace[i + 1].pools, h.vpn)) ==>
        {info.hostHttp, info.hostApi, info.hostHttps} * {h.info.hostHttp, h.info.hostApi, h.info.hostHttps} <= {0}
  {
    PortsNeverShared(cfg, behindVpn, trace, i + 1);
    hide Behavior;
    assert trace[i + 1].held == trace[i].held[id := Held(vpn, info)];
    assert id !in trace[i].held && held in trace[i + 1].held;
    assert Apart(trace[i + 1].pools, trace[i + 1].held[id], trace[i + 1].held[held]);
    ApartMeans(trace[i + 1].pools, Held(vpn, info), trace[i].held[held]);
  }

  lemma ApartMeans(p: Pools, a: Held, b: Held)
    requires Apart(p, a, b)
    ensures a.info.containerHttps == 0 || a.info.containerHttps != b.info.containerHttps
    ensures (a.vpn == "" || PoolOf(p, a.vpn) == PoolOf(p, b.vpn)) ==>
      {a.info.hostHttp, a.info.hostApi, a.info.hostHttps} * {b.info.hostHttp, b.info.hostApi, b.info.hostHttps} <= {0}
  {
    MainMeans(a);
    MainMeans(b);
  }

  lemma MainMeans(h: Held)
    ensures {h.info.hostHttp, h.info.hostApi, h.info.hostHttps} <= Main(h) + {0}
  {
  }

  lemma {:induction false} InvAlways(cfg: Config, behindVpn: bool, trace: seq<State>, i: nat)
    requires Behavior(cfg, behindVpn, trace) && i < |trace|
    ensures Inv(cfg, behindVpn, trace[i])
  {
    hide Inv, Allocates, Fails, Starts, Releases, Adopts, Fits;
    if i == 0 {
      InitialInv(cfg, behindVpn);
    } else {
      InvAlways(cfg, behindVpn, trace, i - 1);
      var s, s' := trace[i - 1], trace[i];
      assert Next(cfg, behindVpn, trace[i - 1], trace[i - 1 + 1]);
      if id, vpn, map_, info :| Allocates(cfg, behindVpn, s, s', id, vpn, map_, info) {
        AllocateKeepsInv(cfg, behindVpn, s, s', id, vpn, map_, info);
      } else if vpn, hostNext :| Fails(cfg, behindVpn, s, s', vpn, hostNext) {
        FailKeepsInv(cfg, behindVpn, s, s', vpn, hostNext);
      } else if id :| Starts(cfg, s, s', id) {
        StartKeepsInv(cfg, behindVpn, s, s', id);
      } else if id :| Releases(s, s', id) {
        ReleaseKeepsInv(cfg, behindVpn, s, s', id);
      } else {
        var id, vpn, info :| Adopts(cfg, behindVpn, s, s', id, vpn, info) && Fits(cfg, s, vpn, info);
        AdoptKeepsExactly(cfg, behindVpn, s, s', id, vpn, info);
      }
    }
  }

  lemma InitialInv(cfg: Config, behindVpn: bool)
    ensures Inv(cfg, behindVpn, INITIAL)
  {
  }

  /** Port exclusivity: on every run in one mode, at every moment, no two engines
      that hold ports share a port of a pool. */
  lemma PortsNeverShared(cfg: Config, behindVpn: bool, trace: seq<State>, i: nat)
    requires Behavior(cfg, behindVpn, trace) && i < |trace|
    ensures Exclusive(trace[i])
  {
    hide *;
    InvAlways(cfg, behindVpn, trace, i);
    InvExclusive(cfg, behindVpn, trace[i]);
  }

  lemma InvExclusive(cfg: Config, behindVpn: bool, s: State)
    requires Inv(cfg, behindVpn, s)
    ensures Exclusive(s)
  {
  }

  /** Why one mode: releasing an engine behind a VPN unmarks the host port of the
      same number, whoever holds it. */
  lemma MixedModeUnmarksForeignPort(p: Pools, g: Held, h: Held)
    requires g.vpn != "" && h.vpn == "" && Main(h) <= p.host && g.info.hostHttp != 0 && g.info.hostHttps == 0
    ensures Main(h) <= Forgotten(p, LabelsOf(g.vpn, g.info)).host <==> g.info.hostHttp !in Main(h)
  {
  }
}
