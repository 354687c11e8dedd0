/** The engine port allocator: cyclic search in several pools, one VPN slot range
    per node, and an all-or-nothing allocation with rollback. */
module Ports {
  import opened Common

  datatype Range = Range(min: int, max: int)

  // ---- cyclic search ----

  /** The first free port at or after p, wrapping at hi, within n tries. */
  function Search(p: int, r: Range, used: set<int>, n: nat): Option<int>
    decreases n
  {
    if n == 0 then None
    else
      var q := if p > r.max then r.min else p;
      if q !in used then Some(q) else Search(q + 1, r, used, n - 1)
  }

  function Size(r: Range): nat {
    if r.max < r.min then 0 else r.max - r.min + 1
  }

  function NextFree(cur: int, r: Range, used: set<int>): Option<int> {
    Search(cur, r, used, Size(r))
  }

  /** The ports of r that are not used. */
  function Free(r: Range, used: set<int>): set<int> {
    set p | r.min <= p <= r.max && p !in used
  }

  predicate CursorOk(cur: int, r: Range) {
    r.min <= r.max ==> r.min <= cur <= r.max + 1
  }

  method NextIn(cur: int, r: Range, used: set<int>) returns (found: Option<int>)
    ensures found == NextFree(cur, r, used)
  {
    var p := cur;
    for k := 0 to Size(r)
      invariant Search(p, r, used, Size(r) - k) == NextFree(cur, r, used)
    {
      if p > r.max {
        p := r.min;
      }
      if p !in used {
        return Some(p);
      }
      p := p + 1;
    }
    return None;
  }

  /** n steps of the cyclic search from p pass over these ports. */
  ghost predicate Passed(p: int, r: Range, n: nat, q: int) {
    (p <= q < p + n && q <= r.max) || r.min <= q < p + n - Size(r)
  }

  lemma {:induction false} SearchPasses(p: int, r: Range, used: set<int>, n: nat)
    requires CursorOk(p, r) && n <= Size(r)
    ensures Search(p, r, used, n).Some? ==>
      Search(p, r, used, n).value in Free(r, used) && Passed(p, r, n, Search(p, r, used, n).value)
    ensures Search(p, r, used, n).None? ==> forall q :: r.min <= q <= r.max && Passed(p, r, n, q) ==> q in used
    decreases n
  {
    if n > 0 {
      var q := if p > r.max then r.min else p;
      if q in used {
        SearchPasses(q + 1, r, used, n - 1);
        if Search(p, r, used, n).None? {
          forall x | r.min <= x <= r.max && Passed(p, r, n, x) ensures x in used {
            assert x == q || Passed(q + 1, r, n - 1, x);
          }
        }
      }
    }
  }

  /** The search finds a free port of the range, and fails exactly when every
      port of the range is used. */
  lemma NextFreeCorrect(cur: int, r: Range, used: set<int>)
    requires CursorOk(cur, r)
    ensures NextFree(cur, r, used).Some? ==> NextFree(cur, r, used).value in Free(r, used)
    ensures NextFree(cur, r, used).None? <==> Free(r, used) == {}
  {
    SearchPasses(cur, r, used, Size(r));
    if NextFree(cur, r, used).None? {
      forall q | r.min <= q <= r.max ensures q in used {
        assert Passed(cur, r, Size(r), q);
      }
    }
  }

  /** It finds the nearest free port: everything from the cursor up to it, going
      around the end of the range, is used. */
  lemma NextFreeNearest(cur: int, r: Range, used: set<int>, q: int)
    requires CursorOk(cur, r) && NextFree(cur, r, used).Some?
    requires var p := NextFree(cur, r, used).value;
      if cur <= p then cur <= q < p else cur <= q <= r.max || r.min <= q < p
    ensures q in used
  {
    SearchNearest(cur, r, used, Size(r), q);
  }

  lemma {:induction false} SearchNearest(p: int, r: Range, used: set<int>, n: nat, q: int)
    requires CursorOk(p, r) && n <= Size(r) && Search(p, r, used, n).Some?
    requires var f := Search(p, r, used, n).value;
      if p <= f then p <= q < f else p <= q <= r.max || r.min <= q < f
    ensures q in used
    decreases n
  {
    var h := if p > r.max then r.min else p;
    if h in used && q != h {
      SearchPasses(h + 1, r, used, n - 1);
      SearchNearest(h + 1, r, used, n - 1, q);
    }
  }

  // ---- the HTTPS retry loop ----

  /** The cursor after k rounds that all ran into the avoided port; None once a
      round has ended the loop. */
  function Rounds(cur: int, r: Range, used: set<int>, avoid: int, k: nat): Option<int>
    decreases k
  {
    if k == 0 then Some(cur)
    else if NextFree(cur, r, used) != Some(avoid) then None
    else Rounds(avoid + 1, r, used, avoid, k - 1)
  }

  lemma OnlyFreeIsFound(cur: int, r: Range, used: set<int>, avoid: int)
    requires CursorOk(cur, r) && Free(r, used) == {avoid}
    ensures NextFree(cur, r, used) == Some(avoid) && CursorOk(avoid + 1, r)
  {
    NextFreeCorrect(cur, r, used);
    assert avoid in Free(r, used);
  }

  lemma AvoidedSecondTime(r: Range, used: set<int>, avoid: int)
    requires avoid in Free(r, used) && NextFree(avoid + 1, r, used) == Some(avoid)
    ensures Free(r, used) == {avoid}
  {
    forall q | q in Free(r, used) ensures q == avoid {
      if q != avoid {
        NextFreeNearest(avoid + 1, r, used, q);
      }
    }
  }

  lemma {:induction false} OnlyFreeSpins(cur: int, r: Range, used: set<int>, avoid: int, k: nat)
    requires CursorOk(cur, r) && Free(r, used) == {avoid}
    ensures Rounds(cur, r, used, avoid, k).Some?
    decreases k
  {
    if k > 0 {
      OnlyFreeIsFound(cur, r, used, avoid);
      OnlyFreeSpins(avoid + 1, r, used, avoid, k - 1);
    }
  }

  /** The retry loop ends within two rounds unless the avoided port is the only
      free one, and in that case it never ends. */
  lemma HttpsLoopEnds(cur: int, r: Range, used: set<int>, avoid: int)
    requires CursorOk(cur, r)
    ensures Free(r, used) != {avoid} ==> Rounds(cur, r, used, avoid, 2).None?
    ensures Free(r, used) == {avoid} ==> forall k :: Rounds(cur, r, used, avoid, k).Some?
  {
    if Free(r, used) == {avoid} {
      forall k ensures Rounds(cur, r, used, avoid, k).Some? {
        OnlyFreeSpins(cur, r, used, avoid, k);
      }
    } else if NextFree(cur, r, used) == Some(avoid) {
      NextFreeCorrect(cur, r, used);
      if NextFree(avoid + 1, r, used) == Some(avoid) {
        AvoidedSecondTime(r, used, avoid);
      }
      assert Rounds(cur, r, used, avoid, 2) == Rounds(avoid + 1, r, used, avoid, 1);
    }
  }

  // ---- configuration, pools, results ----

  datatype Config = Config(host: Range, https: Range, gluetun: Range, slots: seq<Range>)

  /** Where a VPN node's ports come from. */
  datatype Pool = Slot(index: nat) | Global

  /** Every set of used ports, and the slot assigned to each VPN node. */
  datatype Pools = Pools(
    host: set<int>,
    http: set<int>,
    https: set<int>,
    gluetun: set<int>,
    ranges: map<string, set<int>>,
    slots: map<string, nat>)

  const EMPTY := Pools({}, {}, {}, {}, map[], map[])

  datatype PortsInfo = PortsInfo(
    containerHttp: int, containerHttps: int, containerApi: int,
    hostHttp: int, hostApi: int, hostHttps: int)

  /** Spun: the call never returns, holding the allocator's lock. */
  datatype Outcome = Allocated(info: PortsInfo) | NoPort | Spun

  function PoolOf(s: Pools, vpn: string): Pool {
    if vpn in s.slots then Slot(s.slots[vpn]) else Global
  }

  function PoolRange(cfg: Config, pool: Pool): Range {
    if pool.Slot? && pool.index < |cfg.slots| then cfg.slots[pool.index] else cfg.gluetun
  }

  /** Used ports of the pool a node draws from. */
  function UsedBy(s: Pools, vpn: string): set<int> {
    if vpn in s.ranges then s.ranges[vpn] else s.gluetun
  }

  function WithUsed(s: Pools, vpn: string, used: set<int>): Pools {
    if vpn in s.ranges then s.(ranges := s.ranges[vpn := used]) else s.(gluetun := used)
  }

  lemma WithUsedSame(s: Pools, vpn: string, used: set<int>)
    requires used == UsedBy(s, vpn)
    ensures WithUsed(s, vpn, used) == s
  {
    if vpn in s.ranges {
      assert s.ranges[vpn := used] == s.ranges;
    }
  }

  /** Nodes with a range are nodes with a slot, and no slot has two nodes. */
  ghost predicate Injective(cfg: Config, nodes: set<string>, slots: map<string, nat>) {
    nodes == slots.Keys
    && (forall v :: v in slots ==> slots[v] < |cfg.slots|)
    && (forall v, w :: v in slots && w in slots && slots[v] == slots[w] ==> v == w)
  }

  lemma InjectiveMore(cfg: Config, nodes: set<string>, slots: map<string, nat>, vpn: string, idx: nat)
    requires Injective(cfg, nodes, slots) && vpn !in nodes && idx < |cfg.slots| && idx !in slots.Values
    ensures Injective(cfg, nodes + {vpn}, slots[vpn := idx])
  {
  }

  lemma NodesHaveSlots(cfg: Config, nodes: set<string>, slots: map<string, nat>)
    requires Injective(cfg, nodes, slots)
    ensures nodes == slots.Keys && forall v :: v in slots ==> slots[v] < |cfg.slots|
  {
  }

  ghost predicate SlotsOk(cfg: Config, s: Pools) {
    Injective(cfg, s.ranges.Keys, s.slots)
  }

  lemma FreeInRange(r: Range, used: set<int>, p: int)
    ensures p in Free(r, used) <==> r.min <= p <= r.max && p !in used
  {
  }

  lemma WithUsedKeepsNodes(s: Pools, vpn: string, used: set<int>)
    ensures WithUsed(s, vpn, used).ranges.Keys == s.ranges.Keys
  {
  }

  /** The lowest slot at or after i that no node has. */
  function FirstSlot(s: Pools, n: nat, i: nat): Option<nat>
    decreases n - i
  {
    if i >= n then None
    else if i !in s.slots.Values then Some(i)
    else FirstSlot(s, n, i + 1)
  }

  lemma FirstSlotStep(s: Pools, n: nat, i: nat)
    ensures FirstSlot(s, n, i) == if i >= n then None else if i !in s.slots.Values then Some(i) else FirstSlot(s, n, i + 1)
  {
  }

  /** ensureVPNRangeAssigned */
  function Ensured(cfg: Config, s: Pools, vpn: string): Pools {
    if vpn == "" || vpn in s.ranges then s
    else
      match FirstSlot(s, |cfg.slots|, 0)
      case None => s
      case Some(i) => s.(ranges := s.ranges[vpn := {}], slots := s.slots[vpn := i])
  }

  // ---- slots are injective and never move ----

  lemma {:induction false} FirstSlotFree(s: Pools, n: nat, i: nat)
    requires i <= n
    ensures FirstSlot(s, n, i).Some? ==>
      i <= FirstSlot(s, n, i).value < n && FirstSlot(s, n, i).value !in s.slots.Values
    ensures FirstSlot(s, n, i).None? ==> forall k :: i <= k < n ==> k in s.slots.Values
    decreases n - i
  {
    if i < n && i in s.slots.Values {
      FirstSlotFree(s, n, i + 1);
    }
  }

  /** Every slot belongs to some node. */
  ghost predicate SlotsFull(cfg: Config, s: Pools) {
    forall k :: 0 <= k < |cfg.slots| ==> k in s.slots.Values
  }

  /** The pool of a node is decided for good. */
  ghost predicate Settled(cfg: Config, s: Pools, vpn: string) {
    vpn == "" || vpn in s.slots || SlotsFull(cfg, s)
  }

  lemma EnsuredKeepsSlots(cfg: Config, s: Pools, vpn: string)
    requires SlotsOk(cfg, s)
    ensures SlotsOk(cfg, Ensured(cfg, s, vpn)) && Settled(cfg, Ensured(cfg, s, vpn), vpn)
  {
    FirstSlotFree(s, |cfg.slots|, 0);
  }

  /** A settled node keeps its pool, and stays settled, whichever node asks next. */
  lemma SettledPoolNeverMoves(cfg: Config, s: Pools, vpn: string, other: string)
    requires SlotsOk(cfg, s) && Settled(cfg, s, vpn)
    ensures var s' := Ensured(cfg, s, other);
      Settled(cfg, s', vpn) && (vpn != "" ==> PoolOf(s', vpn) == PoolOf(s, vpn))
  {
    FirstSlotFree(s, |cfg.slots|, 0);
    var s' := Ensured(cfg, s, other);
    if vpn != "" && vpn !in s.slots {
      assert s' == s;
    }
  }

  // ---- what an allocation promises ----

  /** The used ports that an engine's own ports are drawn from: its node's pool
      behind a VPN, the host pool otherwise. */
  function MainUsed(s: Pools, vpn: string): set<int> {
    if vpn != "" then UsedBy(s, vpn) else s.host
  }

  function WithMain(s: Pools, vpn: string, used: set<int>): Pools {
    if vpn != "" then WithUsed(s, vpn, used) else s.(host := used)
  }

  function MainRange(cfg: Config, s: Pools, vpn: string): Range {
    if vpn != "" then PoolRange(cfg, PoolOf(s, vpn)) else cfg.host
  }

  function MainFree(cfg: Config, s: Pools, vpn: string): set<int> {
    Free(MainRange(cfg, s, vpn), MainUsed(s, vpn))
  }

  /** The ports of an engine that come from its main pool. */
  function MainPorts(info: PortsInfo, mapped: bool): set<int> {
    {info.hostHttp, info.hostApi} + if mapped then {info.hostHttps} else {}
  }

  /** How many ports one engine takes from its main pool. */
  function Needed(vpn: string, mapHttps: bool): nat {
    if vpn == "" && mapHttps then 3 else 2
  }

  /** All pools after marking main, http and https ports. */
  function Marked(s: Pools, vpn: string, main: set<int>, http: set<int>, https: set<int>): Pools {
    WithMain(s, vpn, MainUsed(s, vpn) + main).(http := s.http + http, https := s.https + https)
  }

  /** Success: every port is from its range, was free, and differs from the others
      of its pool; exactly those ports are now marked. before already has the
      node's range assigned. */
  ghost predicate AllocationOk(cfg: Config, before: Pools, after: Pools, vpn: string, mapHttps: bool, info: PortsInfo) {
    var mapped := vpn == "" && mapHttps;
    && info.containerHttp == info.hostHttp && info.containerApi == info.hostApi
    && (!mapped ==> info.hostHttps == 0)
    && MainPorts(info, mapped) <= MainFree(cfg, before, vpn)
    && |MainPorts(info, mapped)| == Needed(vpn, mapHttps)
    && info.containerHttps in Free(cfg.https, before.https) && info.containerHttps != info.hostHttp
    && after == Marked(before, vpn, MainPorts(info, mapped),
                       if vpn == "" then {info.hostHttp} else {}, {info.containerHttps})
  }

  /** An allocation, in numbers: behind a VPN both main ports are from the node's own
      slot if it has one, else from the global range, and off VPN from the host
      range; none was used, and they differ. */
  lemma AllocationMeans(cfg: Config, before: Pools, after: Pools, vpn: string, mapHttps: bool, info: PortsInfo)
    requires AllocationOk(cfg, before, after, vpn, mapHttps, info) && SlotsOk(cfg, before)
    ensures var r := if vpn == "" then cfg.host else if vpn in before.slots then cfg.slots[before.slots[vpn]] else cfg.gluetun;
      var used := if vpn == "" then before.host else if vpn in before.slots then before.ranges[vpn] else before.gluetun;
      r.min <= info.hostHttp <= r.max && r.min <= info.hostApi <= r.max
      && info.hostHttp !in used && info.hostApi !in used && info.hostHttp != info.hostApi
      && (if vpn == "" && mapHttps then
            r.min <= info.hostHttps <= r.max && info.hostHttps !in used
            && info.hostHttps != info.hostHttp && info.hostHttps != info.hostApi
          else info.hostHttps == 0)
    ensures cfg.https.min <= info.containerHttps <= cfg.https.max && info.containerHttps !in before.https
      && info.containerHttps != info.hostHttp && info.containerHttp == info.hostHttp && info.containerApi == info.hostApi
  {
    var m := MainPorts(info, vpn == "" && mapHttps);
    forall p | p in m ensures p in MainFree(cfg, before, vpn) {
    }
    FreeInRange(MainRange(cfg, before, vpn), MainUsed(before, vpn), info.hostHttp);
    FreeInRange(MainRange(cfg, before, vpn), MainUsed(before, vpn), info.hostApi);
    FreeInRange(MainRange(cfg, before, vpn), MainUsed(before, vpn), info.hostHttps);
    FreeInRange(cfg.https, before.https, info.containerHttps);
    hide Free;
    assert info.hostHttp in m && info.hostApi in m;
    AllDiffer(info.hostHttp, info.hostApi, info.hostHttps, vpn == "" && mapHttps);
  }

  lemma AllDiffer(a: int, b: int, c: int, three: bool)
    requires |{a, b} + if three then {c} else {}| == if three then 3 else 2
    ensures a != b && (three ==> a != c && b != c)
  {
  }

  lemma UnmappedOk(cfg: Config, s: Pools, vpn: string, mapHttps: bool, hp: int, sp: int, ap: int)
    requires {hp, ap} <= MainFree(cfg, s, vpn) && hp != ap && (vpn != "" || !mapHttps)
    requires sp in Free(cfg.https, s.https) && sp != hp
    ensures AllocationOk(cfg, s, Marked(s, vpn, {hp} + {ap}, if vpn == "" then {hp} else {}, {sp}),
                         vpn, mapHttps, PortsInfo(hp, sp, ap, hp, ap, 0))
  {
    hide MainFree, Free, WithMain, MainUsed;
    assert {hp} + {ap} == MainPorts(PortsInfo(hp, sp, ap, hp, ap, 0), false);
  }

  // ---- container labels ----

  /** The port labels of a container; 0 where a label is absent. */
  datatype Labels = Labels(vpn: string, hostHttp: int, hostApi: int, hostHttps: int, http: int, https: int)

  /** The labels written for an engine with these ports. */
  function LabelsOf(vpn: string, info: PortsInfo): Labels {
    Labels(vpn, info.hostHttp, info.hostApi, info.hostHttps, info.containerHttp, info.containerHttps)
  }

  function NonZero(p: int): set<int> {
    if p == 0 then {} else {p}
  }

  function NotedFixed(s: Pools, l: Labels): Pools {
    s.(host := s.host + NonZero(l.hostHttp) + NonZero(l.hostHttps),
       http := s.http + NonZero(l.http),
       https := s.https + NonZero(l.https))
  }

  /** Reserving: host, http and https marks always; the node's pool behind a VPN. */
  function Noted(cfg: Config, s: Pools, l: Labels): Pools {
    var s1 := NotedFixed(s, l);
    if l.vpn != "" then
      var s2 := Ensured(cfg, s1, l.vpn);
      WithUsed(s2, l.vpn, UsedBy(s2, l.vpn) + NonZero(l.hostHttp) + NonZero(l.hostApi))
    else s1.(host := s1.host + NonZero(l.hostApi))
  }

  /** What a node draws from: its own range if it has one, else the global pool. */
  lemma UsedByMeans(s: Pools, vpn: string)
    ensures UsedBy(s, vpn) == if vpn in s.ranges then s.ranges[vpn] else s.gluetun
  {
  }

  /** Reserving, in fields. Behind a VPN the node is first given a range if one is
      left; then its pool has the nonzero host and API port as well, and no other
      node's pool changes. The host pool has the host and HTTPS mapping, off VPN the
      API port too; the HTTP and HTTPS pools have the container's ports. */
  lemma NotedMarks(cfg: Config, s: Pools, l: Labels)
    ensures var t := Noted(cfg, s, l);
      t.host == s.host + NonZero(l.hostHttp) + NonZero(l.hostHttps) + (if l.vpn == "" then NonZero(l.hostApi) else {})
      && t.http == s.http + NonZero(l.http) && t.https == s.https + NonZero(l.https)
      && t.slots == Ensured(cfg, s, l.vpn).slots && t.ranges.Keys == Ensured(cfg, s, l.vpn).ranges.Keys
      && (l.vpn == "" ==> t.gluetun == s.gluetun && t.ranges == s.ranges)
      && (l.vpn != "" && l.vpn in t.ranges ==>
            t.gluetun == s.gluetun
            && t.ranges[l.vpn] == (if l.vpn in s.ranges then s.ranges[l.vpn] else {}) + NonZero(l.hostHttp) + NonZero(l.hostApi))
      && (l.vpn != "" && l.vpn !in t.ranges ==> t.gluetun == s.gluetun + NonZero(l.hostHttp) + NonZero(l.hostApi))
      && forall v :: v != l.vpn ==> (v in t.ranges <==> v in s.ranges) && (v in s.ranges ==> t.ranges[v] == s.ranges[v])
  {
    SameFirstSlot(NotedFixed(s, l), s, |cfg.slots|, 0);
  }

  lemma {:induction false} SameFirstSlot(s: Pools, t: Pools, n: nat, i: nat)
    requires s.slots == t.slots
    ensures FirstSlot(s, n, i) == FirstSlot(t, n, i)
    decreases n - i
  {
    if i < n {
      SameFirstSlot(s, t, n, i + 1);
    }
  }

  lemma NonZeroMeans(p: int)
    ensures forall q :: q in NonZero(p) <==> q == p != 0
  {
  }

  /** Releasing, in fields: the same ports leave the same pools, and the host port
      leaves the host and the container's ports the other pools in any case. */
  lemma ForgottenMarks(s: Pools, l: Labels)
    ensures var t := Forgotten(s, l);
      t.host == s.host - NonZero(l.hostHttp) - NonZero(l.hostHttps) - (if l.vpn == "" then NonZero(l.hostApi) else {})
      && t.http == s.http - NonZero(l.http) && t.https == s.https - NonZero(l.https) && t.slots == s.slots
      && t.ranges.Keys == s.ranges.Keys
      && (l.vpn == "" ==> t.gluetun == s.gluetun && t.ranges == s.ranges)
      && (l.vpn != "" && l.vpn in s.ranges ==>
            t.gluetun == s.gluetun && t.ranges[l.vpn] == s.ranges[l.vpn] - NonZero(l.hostHttp) - NonZero(l.hostApi))
      && (l.vpn != "" && l.vpn !in s.ranges ==> t.gluetun == s.gluetun - NonZero(l.hostHttp) - NonZero(l.hostApi))
      && forall v :: v in s.ranges && v != l.vpn ==> t.ranges[v] == s.ranges[v]
  {
  }

  lemma NotedApi(s: Pools, l: Labels)
    ensures l.hostApi == 0 || l.hostApi == l.hostHttp ==>
      NotedFixed(s, l).host + NonZero(l.hostApi) == NotedFixed(s, l).host
  {
  }

  function ForgottenFixed(s: Pools, l: Labels): Pools {
    s.(host := s.host - NonZero(l.hostHttp) - NonZero(l.hostHttps),
       http := s.http - NonZero(l.http),
       https := s.https - NonZero(l.https))
  }

  function Forgotten(s: Pools, l: Labels): Pools {
    var s1 := ForgottenFixed(s, l);
    if l.vpn != "" then
      WithUsed(s1, l.vpn, UsedBy(s1, l.vpn) - NonZero(l.hostHttp) - NonZero(l.hostApi))
    else s1.(host := s1.host - NonZero(l.hostApi))
  }

  lemma NotedTwice(s: Pools, l: Labels)
    ensures var s' := WithUsed(s, l.vpn, UsedBy(s, l.vpn) + NonZero(l.hostHttp));
      var whole := WithUsed(s, l.vpn, UsedBy(s, l.vpn) + NonZero(l.hostHttp) + NonZero(l.hostApi));
      WithUsed(s', l.vpn, UsedBy(s', l.vpn) + NonZero(l.hostApi)) == whole
      && (l.hostApi == l.hostHttp ==> s' == whole)
  {
    var u := UsedBy(s, l.vpn) + NonZero(l.hostHttp);
    assert l.hostApi == l.hostHttp ==> u == u + NonZero(l.hostApi);
    if l.vpn in s.ranges {
      assert s.ranges[l.vpn := u][l.vpn := u + NonZero(l.hostApi)] == s.ranges[l.vpn := u + NonZero(l.hostApi)];
    }
  }

  lemma ForgottenTwice(s: Pools, l: Labels)
    ensures var s' := WithUsed(s, l.vpn, UsedBy(s, l.vpn) - NonZero(l.hostHttp));
      var whole := WithUsed(s, l.vpn, UsedBy(s, l.vpn) - NonZero(l.hostHttp) - NonZero(l.hostApi));
      WithUsed(s', l.vpn, UsedBy(s', l.vpn) - NonZero(l.hostApi)) == whole
      && (l.hostApi == l.hostHttp || l.hostApi == 0 ==> s' == whole)
  {
    var u := UsedBy(s, l.vpn) - NonZero(l.hostHttp);
    assert l.hostApi == l.hostHttp || l.hostApi == 0 ==> u == u - NonZero(l.hostApi);
    if l.vpn in s.ranges {
      assert s.ranges[l.vpn := u][l.vpn := u - NonZero(l.hostApi)] == s.ranges[l.vpn := u - NonZero(l.hostApi)];
    }
  }

  // ---- the allocator ----

  datatype Kind = HostPort | HttpPort | HttpsPort | GluetunPort

  datatype Reservation = Reservation(kind: Kind, port: int)

  function Reserved(rs: seq<Reservation>, kind: Kind): set<int> {
    set r | r in rs && r.kind == kind :: r.port
  }

  class PortAllocator {
    const cfg: Config
    var hostNext: int
    var httpsNext: int
    var gluetunNext: int
    var usedHost: set<int>
    var usedHttp: set<int>
    var usedHttps: set<int>
    var usedGluetun: set<int>
    var vpnRangeAssignments: map<string, nat>
    /** A node's range record is kept as two maps; its bounds are those of its slot. */
    var vpnUsed: map<string, set<int>>
    var vpnNext: map<string, int>

    ghost function View(): Pools
      reads this
    {
      Pools(usedHost, usedHttp, usedHttps, usedGluetun, vpnUsed, vpnRangeAssignments)
    }

    ghost predicate Valid()
      reads this
    {
      SlotsOk(cfg, View())
      && CursorOk(hostNext, cfg.host) && CursorOk(httpsNext, cfg.https) && CursorOk(gluetunNext, cfg.gluetun)
      && (forall v :: v in vpnUsed ==>
            v != "" && v in vpnNext && CursorOk(vpnNext[v], PoolRange(cfg, PoolOf(View(), v))))
    }

    constructor (cfg: Config)
      ensures Valid() && View() == EMPTY && this.cfg == cfg
    {
      this.cfg := cfg;
      hostNext, httpsNext, gluetunNext := cfg.host.min, cfg.https.min, cfg.gluetun.min;
      usedHost, usedHttp, usedHttps, usedGluetun := {}, {}, {}, {};
      vpnRangeAssignments, vpnUsed, vpnNext := map[], map[], map[];
    }

    method EnsureVpnRangeAssigned(vpn: string)
      requires Valid()
      modifies this`vpnRangeAssignments, this`vpnUsed, this`vpnNext
      ensures Valid() && View() == Ensured(cfg, old(View()), vpn)
    {
      if vpn == "" || |cfg.slots| == 0 {
        return;
      }
      if vpn in vpnUsed {
        return;
      }
      hide FirstSlot, Injective;
      var used := vpnRangeAssignments.Values;
      ghost var before := View();
      FirstSlotStep(before, |cfg.slots|, |cfg.slots|);
      for idx := 0 to |cfg.slots|
        invariant View() == before && Valid() && vpnNext == old(vpnNext)
        invariant FirstSlot(before, |cfg.slots|, idx) == FirstSlot(before, |cfg.slots|, 0)
      {
        FirstSlotStep(before, |cfg.slots|, idx);
        if idx !in used {
          AssignSlot(vpn, idx);
          return;
        }
      }
    }

    /** Gives a free slot to a node. */
    method AssignSlot(vpn: string, idx: nat)
      requires Valid() && vpn != "" && vpn !in vpnUsed
      requires idx < |cfg.slots| && idx !in vpnRangeAssignments.Values
      modifies this`vpnRangeAssignments, this`vpnUsed, this`vpnNext
      ensures Valid()
      ensures View() == old(View()).(ranges := old(vpnUsed)[vpn := {}], slots := old(vpnRangeAssignments)[vpn := idx])
    {
      hide Injective;
      InjectiveMore(cfg, vpnUsed.Keys, vpnRangeAssignments, vpn, idx);
      NodesHaveSlots(cfg, vpnUsed.Keys, vpnRangeAssignments);
      vpnRangeAssignments := vpnRangeAssignments[vpn := idx];
      vpnUsed := vpnUsed[vpn := {}];
      vpnNext := vpnNext[vpn := cfg.slots[idx].min];
      assert vpnUsed.Keys == old(vpnUsed).Keys + {vpn};
    }

    /** nextIn on the host pool, and the marking that follows it. */
    method TakeHost() returns (p: Option<int>)
      requires Valid()
      modifies this`hostNext, this`usedHost
      ensures Valid()
      ensures p == NextFree(old(hostNext), cfg.host, old(usedHost))
      ensures usedHost == old(usedHost) + if p.Some? then {p.value} else {}
      ensures p.Some? ==> p.value in Free(cfg.host, old(usedHost))
      ensures p.None? <==> Free(cfg.host, old(usedHost)) == {}
    {
      p := NextIn(hostNext, cfg.host, usedHost);
      NextFreeCorrect(hostNext, cfg.host, usedHost);
      if p.Some? {
        usedHost := usedHost + {p.value};
        hostNext := p.value + 1;
      }
    }

    lemma SlotOfRange(vpn: string)
      requires Valid()
      ensures vpn in vpnUsed <==> vpn in vpnRangeAssignments
      ensures vpn in vpnUsed ==> vpnRangeAssignments[vpn] < |cfg.slots|
    {
    }

    /** allocGluetun: from the node's own range if it has one, else the global one. */
    method TakeGluetun(vpn: string) returns (p: Option<int>)
      requires Valid()
      modifies this`vpnUsed, this`vpnNext, this`gluetunNext, this`usedGluetun
      ensures Valid()
      ensures var free := Free(PoolRange(cfg, PoolOf(old(View()), vpn)), UsedBy(old(View()), vpn));
        (p.None? <==> free == {}) && (p.Some? ==> p.value in free)
      ensures View() == WithUsed(old(View()), vpn, UsedBy(old(View()), vpn) + if p.Some? then {p.value} else {})
    {
      hide Free, NextFree;
      SlotOfRange(vpn);
      hide Injective;
      if vpn in vpnUsed {
        var range := cfg.slots[vpnRangeAssignments[vpn]];
        p := NextIn(vpnNext[vpn], range, vpnUsed[vpn]);
        NextFreeCorrect(vpnNext[vpn], range, vpnUsed[vpn]);
        WithUsedSame(View(), vpn, vpnUsed[vpn] + {});
        if p.Some? {
          FreeInRange(range, vpnUsed[vpn], p.value);
          WithUsedKeepsNodes(View(), vpn, vpnUsed[vpn] + {p.value});
          vpnUsed := vpnUsed[vpn := vpnUsed[vpn] + {p.value}];
          vpnNext := vpnNext[vpn := p.value + 1];
        }
        return;
      }
      p := NextIn(gluetunNext, cfg.gluetun, usedGluetun);
      NextFreeCorrect(gluetunNext, cfg.gluetun, usedGluetun);
      WithUsedSame(View(), vpn, usedGluetun + {});
      if p.Some? {
        FreeInRange(cfg.gluetun, usedGluetun, p.value);
        usedGluetun := usedGluetun + {p.value};
        gluetunNext := p.value + 1;
      }
    }

    /** The HTTPS retry loop. HttpsLoopEnds shows that a loop still running after
        two rounds never ends; that is the spun result. */
    method TakeHttps(avoid: int) returns (p: Option<int>, spun: bool)
      requires Valid()
      modifies this`httpsNext, this`usedHttps
      ensures Valid()
      ensures spun <==> Free(cfg.https, old(usedHttps)) == {avoid}
      ensures !spun ==> (p.None? <==> Free(cfg.https, old(usedHttps)) == {})
      ensures p.Some? ==> p.value in Free(cfg.https, old(usedHttps)) && p.value != avoid
      ensures usedHttps == old(usedHttps) + if p.Some? then {p.value} else {}
    {
      hide Injective;
      HttpsLoopEnds(httpsNext, cfg.https, usedHttps, avoid);
      ghost var start := httpsNext;
      var rounds := 0;
      while rounds < 2
        invariant rounds <= 2 && CursorOk(httpsNext, cfg.https) && usedHttps == old(usedHttps)
        invariant Valid()
        invariant Rounds(start, cfg.https, usedHttps, avoid, 2) == Rounds(httpsNext, cfg.https, usedHttps, avoid, 2 - rounds)
        invariant rounds > 0 ==> avoid in Free(cfg.https, usedHttps)
      {
        var q := NextIn(httpsNext, cfg.https, usedHttps);
        NextFreeCorrect(httpsNext, cfg.https, usedHttps);
        if q.None? {
          return None, false;
        }
        if q.value != avoid {
          usedHttps := usedHttps + {q.value};
          httpsNext := q.value + 1;
          return q, false;
        }
        httpsNext := q.value + 1;
        rounds := rounds + 1;
      }
      return None, true;
    }

    method Undo(r: Reservation, vpn: string)
      requires Valid()
      modifies this`usedHost, this`usedHttp, this`usedHttps, this`usedGluetun, this`vpnUsed
      ensures Valid()
      ensures View() == Undone(old(View()), r, vpn)
    {
      hide Injective;
      WithUsedKeepsNodes(View(), vpn, UsedBy(View(), vpn) - {r.port});
      match r.kind
      case HostPort => usedHost := usedHost - {r.port};
      case HttpPort => usedHttp := usedHttp - {r.port};
      case HttpsPort => usedHttps := usedHttps - {r.port};
      case GluetunPort =>
        if vpn in vpnUsed {
          vpnUsed := vpnUsed[vpn := vpnUsed[vpn] - {r.port}];
        } else {
          usedGluetun := usedGluetun - {r.port};
        }
    }

    /** Undoes the reservations, newest first. */
    method Rollback(reservations: seq<Reservation>, vpn: string)
      requires Valid()
      modifies this`usedHost, this`usedHttp, this`usedHttps, this`usedGluetun, this`vpnUsed
      ensures Valid()
      ensures View() == RolledBack(old(View()), reservations, vpn)
    {
      var i := |reservations|;
      while i > 0
        invariant 0 <= i <= |reservations| && Valid()
        invariant View() == RolledBack(old(View()), reservations[i..], vpn)
      {
        i := i - 1;
        Undo(reservations[i], vpn);
        assert reservations[i..] == [reservations[i]] + reservations[i + 1..];
      }
    }

    /** One port for the engine itself. */
    method TakeMain(vpn: string) returns (p: Option<int>)
      requires Valid()
      modifies this`vpnUsed, this`vpnNext, this`gluetunNext, this`usedGluetun, this`hostNext, this`usedHost
      ensures Valid()
      ensures p.None? <==> MainFree(cfg, old(View()), vpn) == {}
      ensures p.Some? ==> p.value in MainFree(cfg, old(View()), vpn)
      ensures p.None? ==> View() == old(View())
      ensures p.Some? ==> View() == WithMain(old(View()), vpn, MainUsed(old(View()), vpn) + {p.value})
      ensures vpn == "" && p.Some? ==> p == NextFree(old(hostNext), cfg.host, old(usedHost))
    {
      MarkNothing(View(), vpn);
      if vpn != "" {
        p := TakeGluetun(vpn);
      } else {
        p := TakeHost();
      }
    }

    /** The abandoned allocation leaves no mark behind, except the one FailureUnmarks names. */
    method GiveUp(reservations: seq<Reservation>, vpn: string, ghost before: Pools,
                  ghost main: set<int>, ghost http: set<int>, ghost https: set<int>)
      requires Valid() && View() == Marked(before, vpn, main, http, https)
      requires Records(reservations, vpn, main, http, https)
      requires main !! MainUsed(before, vpn) && https !! before.https
      modifies this`usedHost, this`usedHttp, this`usedHttps, this`usedGluetun, this`vpnUsed
      ensures Valid() && View() == before.(http := before.http - http)
    {
      Rollback(reservations, vpn);
      RollbackUndoes(before, reservations, vpn, main, http, https);
    }

    /** The optional host-side HTTPS mapping, off VPN only. */
    method AllocateMapped(hp: int, sp: int, ap: int, soFar: seq<Reservation>, ghost before: Pools, ghost http: set<int>)
      returns (out: Outcome)
      requires Valid() && View() == Marked(before, "", {hp} + {ap}, http, {sp})
      requires Records(soFar, "", {hp} + {ap}, http, {sp})
      requires {hp, ap} <= MainFree(cfg, before, "") && hp != ap
      requires http == {hp} && sp in Free(cfg.https, before.https) && sp != hp
      modifies this
      ensures Valid()
      ensures match out
        case Allocated(info) =>
          AllocationOk(cfg, before, View(), "", true, info)
        case NoPort =>
          |MainFree(cfg, before, "")| < 3 && View() == before.(http := before.http - http)
        case Spun => false
    {
      hide Free, NextFree, Injective, WithMain, MainUsed, MainFree, MainRange, SlotsOk, Marked, RolledBack, Reserved, Records;
      FreeIsFree(cfg, before, "");
      ghost var main := {hp} + {ap};
      MarkedParts(cfg, before, "", main, http, {sp});
      var hsp := TakeMain("");
      if hsp.None? {
        GiveUp(soFar, "", before, main, http, {sp});
        return NoPort;
      }
      MarkMain(before, "", main, http, {sp}, hsp.value);
      out := Allocated(PortsInfo(hp, sp, ap, hp, ap, hsp.value));
      assert main + {hsp.value} == MainPorts(out.info, true);
    }

    /** The API port and the optional mapped HTTPS port. */
    method AllocateApi(vpn: string, mapHttps: bool, hp: int, sp: int, soFar: seq<Reservation>,
                       ghost before: Pools, ghost http: set<int>) returns (out: Outcome)
      requires Valid() && View() == Marked(before, vpn, {hp}, http, {sp})
      requires Records(soFar, vpn, {hp}, http, {sp}) && hp in MainFree(cfg, before, vpn)
      requires http == (if vpn == "" then {hp} else {}) && sp in Free(cfg.https, before.https) && sp != hp
      modifies this
      ensures Valid()
      ensures match out
        case Allocated(info) =>
          AllocationOk(cfg, before, View(), vpn, mapHttps, info)
        case NoPort =>
          |MainFree(cfg, before, vpn)| < Needed(vpn, mapHttps) && View() == before.(http := before.http - http)
        case Spun => false
    {
      hide Free, NextFree, Injective, WithMain, MainUsed, MainFree, MainRange, SlotsOk, Marked, RolledBack, Reserved, Records, AllocationOk;
      FreeIsFree(cfg, before, vpn);
      ghost var https := {sp};
      MarkedParts(cfg, before, vpn, {hp}, http, https);
      var ap := TakeMain(vpn);
      if ap.None? {
        GiveUp(soFar, vpn, before, {hp}, http, https);
        return NoPort;
      }
      MarkMain(before, vpn, {hp}, http, https, ap.value);
      if vpn != "" || !mapHttps {
        UnmappedOk(cfg, before, vpn, mapHttps, hp, sp, ap.value);
        return Allocated(PortsInfo(hp, sp, ap.value, hp, ap.value, 0));
      }
      RecordMain(soFar, vpn, {hp}, http, https, ap.value);
      out := AllocateMapped(hp, sp, ap.value, soFar + [Reservation(MainKind(vpn), ap.value)], before, http);
    }

    /** The HTTPS port, then the rest, of an engine whose HTTP port is hp. */
    method AllocateRest(vpn: string, mapHttps: bool, hp: int, soFar: seq<Reservation>,
                        ghost before: Pools, ghost http: set<int>) returns (out: Outcome)
      requires Valid() && View() == Marked(before, vpn, {hp}, http, {})
      requires Records(soFar, vpn, {hp}, http, {}) && hp in MainFree(cfg, before, vpn)
      requires http == if vpn == "" then {hp} else {}
      modifies this
      ensures Valid()
      ensures match out
        case Allocated(info) =>
          AllocationOk(cfg, before, View(), vpn, mapHttps, info)
        case NoPort =>
          (|MainFree(cfg, before, vpn)| < Needed(vpn, mapHttps) || Free(cfg.https, before.https) == {})
          && View() == before.(http := before.http - http)
        case Spun =>
          Free(cfg.https, before.https) == {hp}
    {
      hide Free, NextFree, Injective, WithMain, MainUsed, MainFree, MainRange, SlotsOk, Marked, RolledBack, Reserved, Records, AllocationOk;
      FreeIsFree(cfg, before, vpn);
      MarkedParts(cfg, before, vpn, {hp}, http, {});
      var sp, spun := TakeHttps(hp);
      if spun {
        return Spun;
      }
      if sp.None? {
        GiveUp(soFar, vpn, before, {hp}, http, {});
        return NoPort;
      }
      MarkHttps(before, vpn, {hp}, http, sp.value);
      RecordHttps(soFar, vpn, {hp}, http, {}, sp.value);
      assert {} + {sp.value} == {sp.value};
      out := AllocateApi(vpn, mapHttps, hp, sp.value, soFar + [Reservation(HttpsPort, sp.value)], before, http);
    }

    /** Reserves every port of a new engine, or none. */
    method AllocateEnginePorts(vpn: string, mapHttps: bool) returns (out: Outcome)
      requires Valid()
      modifies this
      ensures Valid()
      ensures var before := Ensured(cfg, old(View()), vpn);
        match out
        case Allocated(info) =>
          AllocationOk(cfg, before, View(), vpn, mapHttps, info)
        case NoPort =>
          (|MainFree(cfg, before, vpn)| < Needed(vpn, mapHttps) || Free(cfg.https, before.https) == {})
          && View() == before.(http := before.http - FailureUnmarks(cfg, old(hostNext), before, vpn))
        case Spun =>
          exists hp :: hp in MainFree(cfg, before, vpn) && Free(cfg.https, before.https) == {hp}
    {
      hide Free, NextFree, Injective, WithMain, MainUsed, MainFree, MainRange, Marked, Reserved, Records;
      EnsureVpnRangeAssigned(vpn);
      ghost var before := View();
      MarkNothing(before, vpn);
      FreeIsFree(cfg, before, vpn);
      var hp := TakeMain(vpn);
      if hp.None? {
        NothingFree(cfg, old(hostNext), before, vpn);
        return NoPort;
      }
      MarkMain(before, vpn, {}, {}, {}, hp.value);
      RecordNothing(vpn);
      RecordMain([], vpn, {}, {}, {}, hp.value);
      var reservations := [] + [Reservation(MainKind(vpn), hp.value)];
      ghost var main := {} + {hp.value};
      assert main == {hp.value};
      if vpn == "" {
        MarkHttp(before, vpn, main, hp.value);
        RecordHttp(reservations, vpn, main, {}, {}, hp.value);
        usedHttp := usedHttp + {hp.value};
        reservations := reservations + [Reservation(HttpPort, hp.value)];
        assert {} + {hp.value} == {hp.value};
        out := AllocateRest(vpn, mapHttps, hp.value, reservations, before, {hp.value});
      } else {
        out := AllocateRest(vpn, mapHttps, hp.value, reservations, before, {});
      }
    }

    /** The marks that do not depend on the node. */
    method ReserveFixed(l: Labels)
      requires Valid()
      modifies this`usedHost, this`usedHttp, this`usedHttps
      ensures Valid() && View() == NotedFixed(old(View()), l)
    {
      hide Injective;
      if l.hostHttp != 0 {
        usedHost := usedHost + {l.hostHttp};
      }
      if l.http != 0 {
        usedHttp := usedHttp + {l.http};
      }
      if l.https != 0 {
        usedHttps := usedHttps + {l.https};
      }
      if l.hostHttps != 0 {
        usedHost := usedHost + {l.hostHttps};
      }
    }

    /** Marks the ports of a running container (on its start event). */
    method ReserveFromLabels(l: Labels)
      requires Valid()
      modifies this
      ensures Valid() && View() == Noted(cfg, old(View()), l)
      ensures usedHost == old(usedHost) + NonZero(l.hostHttp) + NonZero(l.hostHttps) + (if l.vpn == "" then NonZero(l.hostApi) else {})
      ensures usedHttp == old(usedHttp) + NonZero(l.http) && usedHttps == old(usedHttps) + NonZero(l.https)
      ensures l.vpn != "" && l.vpn in vpnUsed ==>
        usedGluetun == old(usedGluetun)
        && vpnUsed[l.vpn] == (if l.vpn in old(vpnUsed) then old(vpnUsed)[l.vpn] else {}) + NonZero(l.hostHttp) + NonZero(l.hostApi)
      ensures l.vpn != "" && l.vpn !in vpnUsed ==>
        usedGluetun == old(usedGluetun) + NonZero(l.hostHttp) + NonZero(l.hostApi)
      ensures l.vpn == "" ==> usedGluetun == old(usedGluetun) && vpnUsed == old(vpnUsed)
      ensures forall v :: v != l.vpn ==> (v in vpnUsed <==> v in old(vpnUsed)) && (v in vpnUsed ==> vpnUsed[v] == old(vpnUsed)[v])
    {
      hide Injective, Ensured, NotedFixed, Noted, NonZero;
      NotedMarks(cfg, old(View()), l);
      ReserveSteps(l);
    }

    /** The reservations one by one. */
    method ReserveSteps(l: Labels)
      requires Valid()
      modifies this
      ensures Valid() && View() == Noted(cfg, old(View()), l)
    {
      hide Injective, Ensured, NotedFixed;
      ReserveFixed(l);
      NotedApi(old(View()), l);
      if l.vpn != "" {
        EnsureVpnRangeAssigned(l.vpn);
        ReserveGluetun(l.hostHttp, l.vpn);
        if l.hostApi != l.hostHttp {
          ReserveGluetun(l.hostApi, l.vpn);
        }
        NotedTwice(Ensured(cfg, NotedFixed(old(View()), l), l.vpn), l);
      } else if l.hostApi != 0 && l.hostApi != l.hostHttp {
        usedHost := usedHost + {l.hostApi};
      }
    }

    /** Marks one port in the pool of a node. */
    method ReserveGluetun(p: int, vpn: string)
      requires Valid()
      modifies this`vpnUsed, this`usedGluetun
      ensures Valid() && View() == WithUsed(old(View()), vpn, UsedBy(old(View()), vpn) + NonZero(p))
    {
      hide Injective;
      WithUsedKeepsNodes(View(), vpn, UsedBy(View(), vpn) + NonZero(p));
      WithUsedSame(View(), vpn, UsedBy(View(), vpn) + {});
      if p == 0 {
        return;
      }
      if vpn in vpnUsed {
        vpnUsed := vpnUsed[vpn := vpnUsed[vpn] + {p}];
      } else {
        usedGluetun := usedGluetun + {p};
      }
    }

    method FreeGluetunPort(p: int, vpn: string)
      requires Valid()
      modifies this`vpnUsed, this`usedGluetun
      ensures Valid() && View() == WithUsed(old(View()), vpn, UsedBy(old(View()), vpn) - NonZero(p))
    {
      hide Injective;
      WithUsedKeepsNodes(View(), vpn, UsedBy(View(), vpn) - NonZero(p));
      WithUsedSame(View(), vpn, UsedBy(View(), vpn) - {});
      if p == 0 {
        return;
      }
      if vpn in vpnUsed {
        vpnUsed := vpnUsed[vpn := vpnUsed[vpn] - {p}];
      } else {
        usedGluetun := usedGluetun - {p};
      }
    }

    /** Frees the ports of a container (on its stop event, or when it never started). */
    method ReleaseFromLabels(l: Labels)
      requires Valid()
      modifies this
      ensures Valid() && View() == Forgotten(old(View()), l)
      ensures usedHost == old(usedHost) - NonZero(l.hostHttp) - NonZero(l.hostHttps) - (if l.vpn == "" then NonZero(l.hostApi) else {})
      ensures usedHttp == old(usedHttp) - NonZero(l.http) && usedHttps == old(usedHttps) - NonZero(l.https)
      ensures l.vpn != "" && l.vpn in old(vpnUsed) ==>
        usedGluetun == old(usedGluetun) && vpnUsed == old(vpnUsed)[l.vpn := old(vpnUsed)[l.vpn] - NonZero(l.hostHttp) - NonZero(l.hostApi)]
      ensures l.vpn != "" && l.vpn !in old(vpnUsed) ==>
        usedGluetun == old(usedGluetun) - NonZero(l.hostHttp) - NonZero(l.hostApi) && vpnUsed == old(vpnUsed)
      ensures l.vpn == "" ==> usedGluetun == old(usedGluetun) && vpnUsed == old(vpnUsed)
    {
      hide Injective, Forgotten, NonZero;
      ForgottenMarks(old(View()), l);
      ReleaseSteps(l);
    }

    /** The releases one by one. */
    method ReleaseSteps(l: Labels)
      requires Valid()
      modifies this
      ensures Valid() && View() == Forgotten(old(View()), l)
    {
      hide Injective;
      usedHost := usedHost - NonZero(l.hostHttp);
      usedHttp := usedHttp - NonZero(l.http);
      usedHttps := usedHttps - NonZero(l.https);
      if l.hostHttps != 0 {
        usedHost := usedHost - NonZero(l.hostHttps);
      }
      assert View() == ForgottenFixed(old(View()), l);
      if l.vpn != "" {
        FreeGluetunPort(l.hostHttp, l.vpn);
        if l.hostApi != 0 && l.hostApi != l.hostHttp {
          FreeGluetunPort(l.hostApi, l.vpn);
        }
        ForgottenTwice(ForgottenFixed(old(View()), l), l);
      } else {
        usedHost := usedHost - NonZero(l.hostApi);
      }
    }
  }

  // ---- rollback ----

  function Undone(s: Pools, r: Reservation, vpn: string): Pools {
    match r.kind
    case HostPort => s.(host := s.host - {r.port})
    case HttpPort => s.(http := s.http - {r.port})
    case HttpsPort => s.(https := s.https - {r.port})
    case GluetunPort => WithUsed(s, vpn, UsedBy(s, vpn) - {r.port})
  }

  function RolledBack(s: Pools, rs: seq<Reservation>, vpn: string): Pools {
    if rs == [] then s else Undone(RolledBack(s, rs[1..], vpn), rs[0], vpn)
  }

  function MainKind(vpn: string): Kind {
    if vpn != "" then GluetunPort else HostPort
  }

  /** The HTTP mark a failed allocation removes: off VPN it is the host port tried
      first, whether or not that port had been marked before the call. */
  function FailureUnmarks(cfg: Config, hostNext: int, before: Pools, vpn: string): set<int> {
    if vpn != "" then {}
    else match NextFree(hostNext, cfg.host, before.host) case None => {} case Some(p) => {p}
  }

  /** rs lists exactly these reservations. */
  ghost predicate Records(rs: seq<Reservation>, vpn: string, main: set<int>, http: set<int>, https: set<int>) {
    (forall r :: r in rs ==> r.kind == MainKind(vpn) || r.kind == HttpPort || r.kind == HttpsPort)
    && Reserved(rs, MainKind(vpn)) == main && Reserved(rs, HttpPort) == http && Reserved(rs, HttpsPort) == https
  }

  lemma RecordMore(rs: seq<Reservation>, kind: Kind, port: int)
    ensures forall k :: Reserved(rs + [Reservation(kind, port)], k) == Reserved(rs, k) + if k == kind then {port} else {}
  {
    var rs' := rs + [Reservation(kind, port)];
    forall k ensures Reserved(rs', k) == Reserved(rs, k) + if k == kind then {port} else {} {
      forall p | p in Reserved(rs, k) ensures p in Reserved(rs', k) {
        assert Reservation(k, p) in rs;
        assert Reservation(k, p) in rs';
      }
      assert rs'[|rs|] == Reservation(kind, port);
    }
  }

  lemma RecordNothing(vpn: string)
    ensures Records([], vpn, {}, {}, {})
  {
    assert forall k :: Reserved([], k) == {};
  }

  lemma RecordMain(rs: seq<Reservation>, vpn: string, main: set<int>, http: set<int>, https: set<int>, p: int)
    requires Records(rs, vpn, main, http, https)
    ensures Records(rs + [Reservation(MainKind(vpn), p)], vpn, main + {p}, http, https)
  {
    RecordMore(rs, MainKind(vpn), p);
  }

  lemma RecordHttp(rs: seq<Reservation>, vpn: string, main: set<int>, http: set<int>, https: set<int>, p: int)
    requires Records(rs, vpn, main, http, https)
    ensures Records(rs + [Reservation(HttpPort, p)], vpn, main, http + {p}, https)
  {
    RecordMore(rs, HttpPort, p);
  }

  lemma RecordHttps(rs: seq<Reservation>, vpn: string, main: set<int>, http: set<int>, https: set<int>, p: int)
    requires Records(rs, vpn, main, http, https)
    ensures Records(rs + [Reservation(HttpsPort, p)], vpn, main, http, https + {p})
  {
    RecordMore(rs, HttpsPort, p);
  }

  lemma MarkNothing(s: Pools, vpn: string)
    ensures Marked(s, vpn, {}, {}, {}) == s && WithMain(s, vpn, MainUsed(s, vpn) + {}) == s
  {
    WithUsedSame(s, vpn, UsedBy(s, vpn) + {});
    assert s.http + {} == s.http && s.https + {} == s.https && s.host + {} == s.host;
  }

  lemma MarkMain(s: Pools, vpn: string, main: set<int>, http: set<int>, https: set<int>, p: int)
    ensures var m := Marked(s, vpn, main, http, https);
      WithMain(m, vpn, MainUsed(m, vpn) + {p}) == Marked(s, vpn, main + {p}, http, https)
  {
    assert MainUsed(s, vpn) + main + {p} == MainUsed(s, vpn) + (main + {p});
    if vpn in s.ranges {
      var u := UsedBy(s, vpn) + main;
      assert s.ranges[vpn := u][vpn := u + {p}] == s.ranges[vpn := u + {p}];
    }
  }

  lemma MarkHttp(s: Pools, vpn: string, main: set<int>, p: int)
    ensures var m := Marked(s, vpn, main, {}, {});
      m.(http := m.http + {p}) == Marked(s, vpn, main, {} + {p}, {})
  {
    assert s.http + {} + {p} == s.http + ({} + {p});
  }

  lemma MarkHttps(s: Pools, vpn: string, main: set<int>, http: set<int>, p: int)
    ensures var m := Marked(s, vpn, main, http, {});
      m.(https := m.https + {p}) == Marked(s, vpn, main, http, {p})
  {
    assert s.https + {} + {p} == s.https + {p};
  }

  lemma FreeIsFree(cfg: Config, s: Pools, vpn: string)
    ensures MainFree(cfg, s, vpn) !! MainUsed(s, vpn)
    ensures Free(cfg.https, s.https) !! s.https
    ensures vpn == "" ==> MainUsed(s, vpn) == s.host
  {
  }

  lemma NothingFree(cfg: Config, hostNext: int, s: Pools, vpn: string)
    requires MainFree(cfg, s, vpn) == {} && CursorOk(hostNext, cfg.host)
    ensures |MainFree(cfg, s, vpn)| == 0 && s.http - FailureUnmarks(cfg, hostNext, s, vpn) == s.http
  {
    NextFreeCorrect(hostNext, cfg.host, s.host);
  }

  /** What is left free after some marks; counted, so that nothing left means too few. */
  lemma MarkedParts(cfg: Config, s: Pools, vpn: string, main: set<int>, http: set<int>, https: set<int>)
    requires main <= MainFree(cfg, s, vpn)
    ensures var m := Marked(s, vpn, main, http, https);
      MainFree(cfg, m, vpn) == MainFree(cfg, s, vpn) - main
      && (https == {} ==> Free(cfg.https, m.https) == Free(cfg.https, s.https))
      && (MainFree(cfg, m, vpn) == {} ==> |MainFree(cfg, s, vpn)| == |main|)
  {
    var m := Marked(s, vpn, main, http, https);
    assert MainUsed(m, vpn) == MainUsed(s, vpn) + main;
    assert MainRange(cfg, m, vpn) == MainRange(cfg, s, vpn);
    assert https == {} ==> m.https == s.https;
    assert MainFree(cfg, m, vpn) == MainFree(cfg, s, vpn) - main;
    if MainFree(cfg, m, vpn) == {} {
      forall p | p in MainFree(cfg, s, vpn) ensures p in main {
        assert p in main || p in MainFree(cfg, m, vpn);
      }
      assert MainFree(cfg, s, vpn) == main;
    }
  }

  lemma {:induction false} RolledBackClosed(s: Pools, rs: seq<Reservation>, vpn: string)
    requires forall r :: r in rs ==> r.kind == MainKind(vpn) || r.kind == HttpPort || r.kind == HttpsPort
    ensures RolledBack(s, rs, vpn)
         == WithMain(s, vpn, MainUsed(s, vpn) - Reserved(rs, MainKind(vpn)))
              .(http := s.http - Reserved(rs, HttpPort), https := s.https - Reserved(rs, HttpsPort))
  {
    if rs == [] {
      WithUsedSame(s, vpn, UsedBy(s, vpn) - {});
      assert forall k :: Reserved(rs, k) == {};
    } else {
      RolledBackClosed(s, rs[1..], vpn);
      ReservedCons(rs);
      var p, tail := rs[0].port, rs[1..];
      var u := MainUsed(s, vpn) - Reserved(tail, MainKind(vpn));
      assert u - {p} == MainUsed(s, vpn) - (Reserved(tail, MainKind(vpn)) + {p});
      assert s.http - Reserved(tail, HttpPort) - {p} == s.http - (Reserved(tail, HttpPort) + {p});
      assert s.https - Reserved(tail, HttpsPort) - {p} == s.https - (Reserved(tail, HttpsPort) + {p});
      assert forall k :: k != rs[0].kind ==> Reserved(rs, k) == Reserved(tail, k);
      if vpn in s.ranges {
        assert s.ranges[vpn := u][vpn := u - {p}] == s.ranges[vpn := u - {p}];
      }
    }
  }

  lemma ReservedCons(rs: seq<Reservation>)
    requires rs != []
    ensures forall k :: Reserved(rs, k) == Reserved(rs[1..], k) + if k == rs[0].kind then {rs[0].port} else {}
  {
    forall k ensures Reserved(rs, k) == Reserved(rs[1..], k) + if k == rs[0].kind then {rs[0].port} else {} {
      forall r | r in rs ensures r == rs[0] || r in rs[1..] {
      }
    }
  }

  /** Undoing what was recorded gives the pools back, but for HTTP marks that were
      there already. */
  lemma RollbackUndoes(s: Pools, rs: seq<Reservation>, vpn: string, main: set<int>, http: set<int>, https: set<int>)
    requires Records(rs, vpn, main, http, https) && main !! MainUsed(s, vpn) && https !! s.https
    ensures RolledBack(Marked(s, vpn, main, http, https), rs, vpn) == s.(http := s.http - http)
  {
    var m := Marked(s, vpn, main, http, https);
    RolledBackClosed(m, rs, vpn);
    assert MainUsed(m, vpn) - main == MainUsed(s, vpn);
    assert s.http + http - http == s.http - http && s.https + https - https == s.https;
    if vpn in s.ranges {
      assert m.ranges[vpn := UsedBy(s, vpn)] == s.ranges;
    }
  }

  /** A failed allocation restores every mark exactly when it is behind a VPN, or
      found no host port at all, or the host port it tried was not marked as an
      HTTP port. */
  lemma FailureRestoresWhen(cfg: Config, hostNext: int, before: Pools, vpn: string)
    ensures before.(http := before.http - FailureUnmarks(cfg, hostNext, before, vpn)) == before
      <==> vpn != "" || NextFree(hostNext, cfg.host, before.host).None?
           || NextFree(hostNext, cfg.host, before.host).value !in before.http
  {
    assert before.http - {} == before.http;
    if vpn == "" && NextFree(hostNext, cfg.host, before.host).Some? {
      var p := NextFree(hostNext, cfg.host, before.host).value;
      assert p !in before.http ==> before.http - {p} == before.http;
      assert p in before.http ==> before.http - {p} != before.http;
    }
  }
}
