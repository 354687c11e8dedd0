/** Shrinking the fleet: which engines may stop, which are picked in a scale-down,
    and which are drained by a density pass. */
module Controller {
  import opened Common
  import opened Sorting
  import opened Store
  import opened Placement

  datatype Config = Config(
    minReplicas: int,
    minFreeReplicas: int,
    gracePeriod: int,
    preferredPerVpn: int,
    maxPerVpn: int)

  // ---- may one engine stop ----

  /** Registered, idle by count and not draining. */
  function FreeEngines(engines: map<Id, Engine>, l: Loads): set<Id> {
    set id | id in engines && Count(l.streamCounts, id) == 0 && !engines[id].draining
  }

  /** Healthy nodes with engines, other than v. */
  function OtherNodes(engines: map<Id, Engine>, healthy: set<string>, v: string): set<string> {
    set w | w in healthy && w != v && OnNode(engines, w) != {}
  }

  /** Its node already has fewer engines than every other healthy node in use. */
  predicate NodeTooSmall(engines: map<Id, Engine>, healthy: set<string>, id: Id) {
    id in engines && engines[id].vpn != "" && engines[id].vpn in healthy && |healthy| > 1
    && OtherNodes(engines, healthy, engines[id].vpn) != {}
    && forall w :: w in OtherNodes(engines, healthy, engines[id].vpn) ==>
         |OnNode(engines, engines[id].vpn)| < |OnNode(engines, w)|
  }

  /** A reason for the engine to stay, whatever the grace period. */
  predicate MustStay(engines: map<Id, Engine>, l: Loads, healthy: set<string>, cfg: Config, id: Id) {
    || EngineLoad(l, id) > 0
    || (|engines| > 0 && |engines| - 1 < cfg.minReplicas)
    || (cfg.minFreeReplicas > 0 && |FreeEngines(engines, l)| > 0 && |FreeEngines(engines, l)| - 1 < cfg.minFreeReplicas)
    || NodeTooSmall(engines, healthy, id)
  }

  /** It has been seen empty for the grace period. */
  predicate GraceOver(emptyAt: map<Id, int>, cfg: Config, id: Id, bypass: bool, now: int) {
    bypass || cfg.gracePeriod == 0 || (id in emptyAt && now - emptyAt[id] >= cfg.gracePeriod)
  }

  predicate MayStop(engines: map<Id, Engine>, l: Loads, healthy: set<string>, cfg: Config,
                    emptyAt: map<Id, int>, id: Id, bypass: bool, now: int) {
    !MustStay(engines, l, healthy, cfg, id) && GraceOver(emptyAt, cfg, id, bypass, now)
  }

  /** The empty-since record after the check. */
  function EmptyAfter(engines: map<Id, Engine>, l: Loads, healthy: set<string>, cfg: Config,
                      emptyAt: map<Id, int>, id: Id, bypass: bool, now: int): map<Id, int> {
    if MustStay(engines, l, healthy, cfg, id) || GraceOver(emptyAt, cfg, id, bypass, now) then emptyAt - {id}
    else if id in emptyAt then emptyAt
    else emptyAt[id := now]
  }

  /** May stop, in fields: it is idle; the fleet keeps its minimum without it, and, if
      that matters and any engine is free, the free ones theirs; its node does not
      already have fewer engines than every other healthy one in use; and it has
      been seen empty for the grace period. */
  lemma MayStopMeans(engines: map<Id, Engine>, l: Loads, healthy: set<string>, cfg: Config,
                     emptyAt: map<Id, int>, id: Id, bypass: bool, now: int)
    ensures var free := set e | e in engines && Count(l.streamCounts, e) == 0 && !engines[e].draining;
      MayStop(engines, l, healthy, cfg, emptyAt, id, bypass, now) <==>
        Count(l.streamCounts, id) + Count(l.enginePending, id) == 0
        && (engines == map[] || |engines| - 1 >= cfg.minReplicas)
        && (cfg.minFreeReplicas <= 0 || free == {} || |free| - 1 >= cfg.minFreeReplicas)
        && !NodeTooSmall(engines, healthy, id)
        && (bypass || cfg.gracePeriod == 0 || (id in emptyAt && now - emptyAt[id] >= cfg.gracePeriod))
  {
    hide NodeTooSmall;
    assert FreeEngines(engines, l) == set e | e in engines && Count(l.streamCounts, e) == 0 && !engines[e].draining;
    assert engines == map[] <==> |engines| == 0;
  }

  /** Too small a node, in fields. */
  lemma NodeTooSmallMeans(engines: map<Id, Engine>, healthy: set<string>, id: Id)
    ensures NodeTooSmall(engines, healthy, id) <==>
      id in engines && engines[id].vpn != "" && engines[id].vpn in healthy
      && (exists o :: o in engines && engines[o].vpn in healthy && engines[o].vpn != engines[id].vpn)
      && forall o :: o in engines && engines[o].vpn in healthy && engines[o].vpn != engines[id].vpn ==>
           |set e | e in engines && engines[e].vpn == engines[id].vpn| < |set e | e in engines && engines[e].vpn == engines[o].vpn|
  {
    if id in engines && engines[id].vpn in healthy {
      var v := engines[id].vpn;
      forall o | o in engines && engines[o].vpn in healthy && engines[o].vpn != v
        ensures engines[o].vpn in OtherNodes(engines, healthy, v) && |healthy| > 1
      {
        assert o in OnNode(engines, engines[o].vpn);
        TwoMembers(healthy, v, engines[o].vpn);
      }
      forall w | w in OtherNodes(engines, healthy, v) ensures exists o :: o in engines && engines[o].vpn == w {
        var o :| o in OnNode(engines, w);
      }
    }
  }

  lemma TwoMembers(s: set<string>, v: string, w: string)
    requires v in s && w in s && v != w
    ensures |s| > 1
  {
    assert |s - {v}| >= 1 by {
      assert w in s - {v};
    }
  }

  /** One check of an engine: the state it is made in, and when. */
  datatype Check = Check(engines: map<Id, Engine>, loads: Loads, healthy: set<string>, now: int)

  /** The empty-since record after a run of checks of one engine. */
  function Recorded(cfg: Config, emptyAt: map<Id, int>, id: Id, checks: seq<Check>): map<Id, int> {
    if checks == [] then emptyAt
    else
      var n, c := |checks| - 1, checks[|checks| - 1];
      EmptyAfter(c.engines, c.loads, c.healthy, cfg, Recorded(cfg, emptyAt, id, checks[..n]), id, false, c.now)
  }

  /** Every check of the run found no reason to stay, and too early to stop. */
  ghost predicate AllEmpty(cfg: Config, id: Id, checks: seq<Check>) {
    forall k :: 0 <= k < |checks| ==>
      !MustStay(checks[k].engines, checks[k].loads, checks[k].healthy, cfg, id)
      && checks[k].now - checks[0].now < cfg.gracePeriod
  }

  /** The grace period is counted from the first check in an unbroken run of empty
      ones: the next empty check stops the engine exactly when it comes that much
      later, and a check that finds it in use starts the count again. */
  lemma {:induction false} GraceIsCounted(cfg: Config, emptyAt: map<Id, int>, id: Id, checks: seq<Check>, next: Check)
    requires cfg.gracePeriod > 0 && id !in emptyAt && checks != [] && AllEmpty(cfg, id, checks)
    ensures var record := Recorded(cfg, emptyAt, id, checks);
      id in record && record[id] == checks[0].now
      && (MustStay(next.engines, next.loads, next.healthy, cfg, id) ==>
            !MayStop(next.engines, next.loads, next.healthy, cfg, record, id, false, next.now)
            && id !in EmptyAfter(next.engines, next.loads, next.healthy, cfg, record, id, false, next.now))
      && (!MustStay(next.engines, next.loads, next.healthy, cfg, id) ==>
            (MayStop(next.engines, next.loads, next.healthy, cfg, record, id, false, next.now)
             <==> next.now - checks[0].now >= cfg.gracePeriod))
  {
    hide MustStay;
    var n := |checks| - 1;
    if n > 0 {
      GraceIsCounted(cfg, emptyAt, id, checks[..n], next);
    } else {
      assert checks[..0] == [];
    }
  }

  method CountFree(st: Store) returns (n: nat)
    ensures n == |FreeEngines(st.engines, st.LoadsView())|
  {
    var rest := st.engines.Keys;
    n := 0;
    ghost var seen: set<Id> := {};
    while rest != {}
      invariant rest <= st.engines.Keys && n == |seen|
      invariant seen == set id | id in FreeEngines(st.engines, st.LoadsView()) && id !in rest
      decreases rest
    {
      var id :| id in rest;
      rest := rest - {id};
      if Count(st.streamCounts, id) == 0 && !st.engines[id].draining {
        n := n + 1;
        seen := seen + {id};
      }
    }
    assert seen == FreeEngines(st.engines, st.LoadsView());
  }

  /** The engines of a node outside rest. */
  ghost function Seen(engines: map<Id, Engine>, rest: set<Id>, w: string): set<Id> {
    OnNode(engines, w) - rest
  }

  lemma SeenStep(engines: map<Id, Engine>, rest: set<Id>, id: Id, w: string)
    requires id in rest && id in engines
    ensures |Seen(engines, rest - {id}, w)| == |Seen(engines, rest, w)| + if engines[id].vpn == w then 1 else 0
  {
    if engines[id].vpn == w {
      assert Seen(engines, rest - {id}, w) == Seen(engines, rest, w) + {id};
    } else {
      assert Seen(engines, rest - {id}, w) == Seen(engines, rest, w);
    }
  }

  /** The per-node engine counts of the balance check. */
  method CountHealthy(st: Store, healthy: set<string>) returns (counts: map<string, nat>)
    requires "" !in healthy
    ensures forall w :: w in counts <==> w in healthy && OnNode(st.engines, w) != {}
    ensures forall w :: w in counts ==> counts[w] == |OnNode(st.engines, w)|
  {
    hide Seen;
    counts := map[];
    var rest := st.engines.Keys;
    NothingSeen(st.engines);
    while rest != {}
      invariant rest <= st.engines.Keys
      invariant forall w :: w in counts ==> w in healthy && counts[w] > 0
      invariant forall w :: w in healthy ==> Count(counts, w) == |Seen(st.engines, rest, w)|
      decreases rest
    {
      var id :| id in rest;
      forall w { SeenStep(st.engines, rest, id, w); }
      rest := rest - {id};
      var v := st.engines[id].vpn;
      if v != "" && v in healthy {
        counts := counts[v := Count(counts, v) + 1];
      }
    }
    AllSeen(st.engines);
  }

  lemma NothingSeen(engines: map<Id, Engine>)
    ensures forall w :: |Seen(engines, engines.Keys, w)| == 0
  {
    assert forall w :: Seen(engines, engines.Keys, w) == {};
  }

  lemma AllSeen(engines: map<Id, Engine>)
    ensures forall w :: Seen(engines, {}, w) == OnNode(engines, w)
  {
  }

  /** The balance check itself. */
  method NodeIsTooSmall(st: Store, healthy: set<string>, id: Id) returns (b: bool)
    requires "" !in healthy
    ensures b <==> NodeTooSmall(st.engines, healthy, id)
  {
    if id !in st.engines || st.engines[id].vpn == "" {
      return false;
    }
    var v := st.engines[id].vpn;
    if |healthy| <= 1 || v !in healthy {
      return false;
    }
    var counts := CountHealthy(st, healthy);
    var current := Count(counts, v);
    assert id in OnNode(st.engines, v);
    var lowest: Option<nat> := None;
    ghost var others := OtherNodes(st.engines, healthy, v);
    var rest := counts.Keys;
    while rest != {}
      invariant rest <= counts.Keys
      invariant lowest.None? <==> others - rest == {}
      invariant lowest.Some? ==> exists w :: w in others - rest && |OnNode(st.engines, w)| == lowest.value
      invariant lowest.Some? ==> forall w :: w in others - rest ==> lowest.value <= |OnNode(st.engines, w)|
      decreases rest
    {
      var w :| w in rest;
      ghost var before := rest;
      rest := rest - {w};
      if w != v {
        assert w in others && others - rest == (others - before) + {w};
        if lowest.None? || counts[w] < lowest.value {
          lowest := Some(counts[w]);
        }
      } else {
        assert others - rest == others - before;
      }
    }
    assert others - rest == others;
    return lowest.Some? && current < lowest.value;
  }

  method CanStopEngine(st: Store, healthy: set<string>, cfg: Config, id: Id, bypass: bool, now: int) returns (ok: bool)
    requires "" !in healthy
    modifies st`emptyAt
    ensures ok <==> MayStop(st.engines, st.LoadsView(), healthy, cfg, old(st.emptyAt), id, bypass, now)
    ensures st.emptyAt == EmptyAfter(st.engines, st.LoadsView(), healthy, cfg, old(st.emptyAt), id, bypass, now)
  {
    hide NodeTooSmall, FreeEngines, EngineLoad, GraceOver;
    if EngineLoad(st.LoadsView(), id) > 0 {
      st.emptyAt := st.emptyAt - {id};
      return false;
    }
    var total := |st.engines|;
    if total > 0 && total - 1 < cfg.minReplicas {
      st.emptyAt := st.emptyAt - {id};
      return false;
    }
    if cfg.minFreeReplicas > 0 {
      var freeCount := CountFree(st);
      if freeCount > 0 && freeCount - 1 < cfg.minFreeReplicas {
        st.emptyAt := st.emptyAt - {id};
        return false;
      }
    }
    var small := NodeIsTooSmall(st, healthy, id);
    if small {
      st.emptyAt := st.emptyAt - {id};
      return false;
    }
    ok := GraceCheck(st, cfg, id, bypass, now);
  }

  /** The end of the check, for an engine with no other reason to stay. */
  method GraceCheck(st: Store, cfg: Config, id: Id, bypass: bool, now: int) returns (ok: bool)
    modifies st`emptyAt
    ensures ok <==> GraceOver(old(st.emptyAt), cfg, id, bypass, now)
    ensures st.emptyAt == if ok then old(st.emptyAt) - {id}
                          else if id in old(st.emptyAt) then old(st.emptyAt) else old(st.emptyAt)[id := now]
  {
    if bypass || cfg.gracePeriod == 0 {
      st.emptyAt := st.emptyAt - {id};
      return true;
    }
    if id !in st.emptyAt {
      st.emptyAt := st.emptyAt[id := now];
      return false;
    }
    if now - st.emptyAt[id] >= cfg.gracePeriod {
      st.emptyAt := st.emptyAt - {id};
      return true;
    }
    return false;
  }

  // ---- the scale-down batch ----

  /** A leader is needed while another engine that is not draining shares its node. */
  predicate LeaderNeeded(engines: map<Id, Engine>, e: Engine) {
    e.forwarded && e.vpn != ""
    && exists o :: o in engines && engines[o].vpn == e.vpn && o != e.containerId && !engines[o].draining
  }

  datatype Scored = Scored(e: Engine, streams: int)

  /** Fewest streams, then followers before leaders, then oldest. */
  predicate StopsBefore(a: Scored, b: Scored) {
    if a.streams != b.streams then a.streams < b.streams
    else if a.e.forwarded != b.e.forwarded then !a.e.forwarded
    else a.e.firstSeen < b.e.firstSeen
  }

  lemma StopsBeforeIsStrictWeak()
    ensures StrictWeak(StopsBefore)
  {
  }

  /** May be picked, judged in the state before the pass. */
  predicate Pickable(engines: map<Id, Engine>, l: Loads, healthy: set<string>, cfg: Config,
                     emptyAt: map<Id, int>, e: Engine, now: int) {
    MayStop(engines, l, healthy, cfg, emptyAt, e.containerId, false, now) && !LeaderNeeded(engines, e)
  }

  ghost predicate DistinctIds(es: seq<Engine>) {
    forall i, j :: 0 <= i < j < |es| ==> es[i].containerId != es[j].containerId
  }

  /** The scan: score every engine that may be picked. */
  method ScoreCandidates(st: Store, active: seq<Engine>, healthy: set<string>, cfg: Config, now: int) returns (ss: seq<Scored>)
    requires DistinctIds(active) && "" !in healthy
    modifies st`emptyAt
    ensures forall s :: s in ss ==>
      s.e in active && s.streams == EngineLoad(st.LoadsView(), s.e.containerId)
      && Pickable(st.engines, st.LoadsView(), healthy, cfg, old(st.emptyAt), s.e, now)
    ensures forall e :: e in active && Pickable(st.engines, st.LoadsView(), healthy, cfg, old(st.emptyAt), e, now) ==>
      Scored(e, EngineLoad(st.LoadsView(), e.containerId)) in ss
    ensures DistinctScored(ss)
  {
    hide MayStop, EngineLoad;
    ss := [];
    for i := 0 to |active|
      invariant forall k :: i <= k < |active| ==> SameRecord(st.emptyAt, old(st.emptyAt), active[k].containerId)
      invariant forall s :: s in ss ==>
        s.e in active && s.streams == EngineLoad(st.LoadsView(), s.e.containerId)
        && Pickable(st.engines, st.LoadsView(), healthy, cfg, old(st.emptyAt), s.e, now)
      invariant forall k :: 0 <= k < i && Pickable(st.engines, st.LoadsView(), healthy, cfg, old(st.emptyAt), active[k], now) ==>
        Scored(active[k], EngineLoad(st.LoadsView(), active[k].containerId)) in ss
      invariant DistinctScored(ss) && forall s :: s in ss ==> s.e in active[..i]
    {
      var e := active[i];
      assert active[..i + 1] == active[..i] + [e];
      SameVerdict(st.engines, st.LoadsView(), healthy, cfg, st.emptyAt, old(st.emptyAt), e.containerId, now);
      var ok := CheckOne(st, active, i, healthy, cfg, now, old(st.emptyAt));
      if !ok {
        continue;
      }
      if e.forwarded && e.vpn != "" {
        var needed := HasOtherActive(st, e);
        if needed {
          continue;
        }
      }
      ScoredSnoc(active, i, ss, EngineLoad(st.LoadsView(), e.containerId));
      ss := ss + [Scored(e, EngineLoad(st.LoadsView(), e.containerId))];
    }
  }

  lemma ScoredSnoc(active: seq<Engine>, i: nat, ss: seq<Scored>, load: int)
    requires DistinctIds(active) && i < |active| && DistinctScored(ss) && forall s :: s in ss ==> s.e in active[..i]
    ensures DistinctScored(ss + [Scored(active[i], load)])
  {
    forall s | s in ss ensures s.e.containerId != active[i].containerId {
      var k :| 0 <= k < i && active[..i][k] == s.e;
      assert active[k] == s.e;
    }
  }

  /** Checking one engine leaves the records of the later ones alone. */
  method CheckOne(st: Store, active: seq<Engine>, i: nat, healthy: set<string>, cfg: Config, now: int,
                  ghost before: map<Id, int>) returns (ok: bool)
    requires DistinctIds(active) && "" !in healthy && i < |active|
    requires forall k :: i <= k < |active| ==> SameRecord(st.emptyAt, before, active[k].containerId)
    modifies st`emptyAt
    ensures ok <==> MayStop(st.engines, st.LoadsView(), healthy, cfg, old(st.emptyAt), active[i].containerId, false, now)
    ensures forall k :: i < k < |active| ==> SameRecord(st.emptyAt, before, active[k].containerId)
  {
    hide MayStop, MustStay, GraceOver;
    ok := CanStopEngine(st, healthy, cfg, active[i].containerId, false, now);
  }

  lemma SameVerdict(engines: map<Id, Engine>, l: Loads, healthy: set<string>, cfg: Config,
                    a: map<Id, int>, b: map<Id, int>, id: Id, now: int)
    requires SameRecord(a, b, id)
    ensures MayStop(engines, l, healthy, cfg, a, id, false, now) <==> MayStop(engines, l, healthy, cfg, b, id, false, now)
  {
    hide MustStay;
  }

  ghost predicate SameRecord(a: map<Id, int>, b: map<Id, int>, id: Id) {
    (id in a <==> id in b) && (id in a ==> a[id] == b[id])
  }

  method HasOtherActive(st: Store, e: Engine) returns (b: bool)
    requires e.forwarded && e.vpn != ""
    ensures b <==> LeaderNeeded(st.engines, e)
  {
    var rest := st.engines.Keys;
    while rest != {}
      invariant rest <= st.engines.Keys
      invariant forall o :: o in st.engines && o !in rest ==>
        st.engines[o].vpn != e.vpn || o == e.containerId || st.engines[o].draining
      decreases rest
    {
      var o :| o in rest;
      rest := rest - {o};
      if st.engines[o].vpn == e.vpn && o != e.containerId && !st.engines[o].draining {
        return true;
      }
    }
    return false;
  }

  function ScoreOf(l: Loads, e: Engine): Scored {
    Scored(e, EngineLoad(l, e.containerId))
  }

  /** In a sorted sequence nothing beyond a prefix comes before anything in it. */
  lemma PrefixIsFirst(sorted: seq<Scored>, n: nat, a: Scored, b: Scored)
    requires Sorted(sorted, StopsBefore) && n <= |sorted|
    requires a in sorted[..n] && b in sorted && b !in sorted[..n]
    ensures !StopsBefore(b, a)
  {
    var i :| 0 <= i < n && sorted[..n][i] == a;
    assert sorted == sorted[..n] + sorted[n..];
    var j :| 0 <= j < |sorted| - n && sorted[n..][j] == b;
    assert sorted[n + j] == b;
  }

  /** At most count engines, each idle and allowed to stop, a leader only when no
      other engine needs it; an engine that could have been picked is left out
      only when the batch is full, and then comes before none in it. */
  method SelectTerminationCandidates(st: Store, active: seq<Engine>, count: int, healthy: set<string>, cfg: Config, now: int)
    returns (batch: seq<Engine>)
    requires DistinctIds(active) && "" !in healthy
    modifies st`emptyAt
    ensures |batch| <= Max(count, 0) && DistinctIds(batch)
    ensures forall e :: e in batch ==>
      e in active && EngineLoad(st.LoadsView(), e.containerId) == 0 && !LeaderNeeded(st.engines, e)
    ensures forall e :: e in batch ==>
      Pickable(st.engines, st.LoadsView(), healthy, cfg, old(st.emptyAt), e, now)
    ensures forall d :: (d in active && d !in batch
                         && Pickable(st.engines, st.LoadsView(), healthy, cfg, old(st.emptyAt), d, now)) ==>
      |batch| >= count
      && forall e :: e in batch ==> !StopsBefore(ScoreOf(st.LoadsView(), d), ScoreOf(st.LoadsView(), e))
    ensures forall e, o :: e in batch && o in st.engines && e.forwarded && st.engines[o].vpn == e.vpn != "" && o != e.containerId ==>
      st.engines[o].draining
    ensures forall d, e | e in batch && d in active && d !in batch
                          && Pickable(st.engines, st.LoadsView(), healthy, cfg, old(st.emptyAt), d, now) ::
      (e.forwarded ==> d.forwarded) && (e.forwarded == d.forwarded ==> e.firstSeen <= d.firstSeen)
  {
    hide MayStop, StopsBefore, Pickable, LeaderNeeded, DistinctScored, DistinctIds;
    var ss := ScoreCandidates(st, active, healthy, cfg, now);
    StopsBeforeIsStrictWeak();
    var sorted := SortSlice(ss, StopsBefore);
    SameMembers(sorted, ss);
    DistinctSurvivesSort(ss, sorted);
    batch := [];
    var i := 0;
    while i < |sorted| && |batch| < count
      invariant 0 <= i <= |sorted| && |batch| == i && |batch| <= Max(count, 0)
      invariant forall k :: 0 <= k < i ==> batch[k] == sorted[..i][k].e
    {
      batch := batch + [sorted[i].e];
      i := i + 1;
    }
    ghost var l := st.LoadsView();
    BatchDistinct(sorted, batch);
    BatchMembers(l, sorted, batch);
    forall d, e | d in active && d !in batch && e in batch
        && Pickable(st.engines, l, healthy, cfg, old(st.emptyAt), d, now)
      ensures !StopsBefore(ScoreOf(l, d), ScoreOf(l, e))
    {
      PrefixIsFirst(sorted, i, ScoreOf(l, e), ScoreOf(l, d));
    }
    forall e | e in batch ensures EngineLoad(l, e.containerId) == 0 && !LeaderNeeded(st.engines, e) {
      PickedIsIdle(st.engines, l, healthy, cfg, old(st.emptyAt), e, now);
    }
    forall d | d in active && d !in batch && Pickable(st.engines, l, healthy, cfg, old(st.emptyAt), d, now)
      ensures |batch| >= count
    {
      assert ScoreOf(l, d) in sorted;
      assert sorted[..|sorted|] == sorted;
    }
    forall d, e | e in batch && d in active && d !in batch
        && Pickable(st.engines, l, healthy, cfg, old(st.emptyAt), d, now)
      ensures (e.forwarded ==> d.forwarded) && (e.forwarded == d.forwarded ==> e.firstSeen <= d.firstSeen)
    {
      PickedIsIdle(st.engines, l, healthy, cfg, old(st.emptyAt), d, now);
      IdleOrder(l, d, e);
    }
    forall e | e in batch {
      NotNeededMeans(st.engines, e);
    }
  }

  /** Among idle engines followers go before leaders, and of equals the oldest. */
  lemma IdleOrder(l: Loads, d: Engine, e: Engine)
    requires EngineLoad(l, d.containerId) == 0 && EngineLoad(l, e.containerId) == 0
    ensures !StopsBefore(ScoreOf(l, d), ScoreOf(l, e)) <==>
      (e.forwarded ==> d.forwarded) && (e.forwarded == d.forwarded ==> e.firstSeen <= d.firstSeen)
  {
  }

  lemma NotNeededMeans(engines: map<Id, Engine>, e: Engine)
    ensures !LeaderNeeded(engines, e) <==>
      forall o :: o in engines && e.forwarded && engines[o].vpn == e.vpn != "" && o != e.containerId ==> engines[o].draining
  {
  }

  // ---- what a scale-down leaves ----

  /** A batch is no larger than the surplus: active engines and queued creations
      beyond the desired number. What is left is at least the desired number less
      those creations; and after a full batch the minimum holds exactly when that,
      with the engines that are not active, reaches it. */
  lemma FleetAfterBatch(engines: set<Id>, active: set<Id>, batch: set<Id>, desired: int, creating: nat, minimum: int)
    requires batch <= active <= engines && |batch| <= Max(0, |active| + creating - desired)
    ensures |engines - batch| >= Min(|engines|, desired - creating)
    ensures |batch| == |active| + creating - desired ==>
      (|engines - batch| >= minimum <==> desired - creating + (|engines| - |active|) >= minimum)
  {
    SubsetCard(batch, engines);
    SubsetCard(active, engines);
  }

  /** Each engine of a batch may stop, but they are judged one by one, and creations
      still queued count as running: three idle engines, two desired and required,
      and one creation queued, and every batch of the surplus leaves one engine. */
  lemma BatchBreaksMinimum(batch: seq<Engine>)
    requires var cfg := Config(2, 0, 0, 0, 0);
      DistinctIds(batch) && |batch| <= 2
      && (forall e :: e in batch ==> e in THREE)
      && forall d :: d in THREE && d !in batch && Pickable(THREE_ENGINES, NO_LOADS, {}, cfg, map[], d, 0) ==> |batch| >= 2
    ensures |THREE| + 1 - 2 == 2 && |THREE_ENGINES.Keys - IdsOf(batch)| == 1
  {
    var cfg := Config(2, 0, 0, 0, 0);
    forall d | d in THREE ensures Pickable(THREE_ENGINES, NO_LOADS, {}, cfg, map[], d, 0) {
      ThreeMayStop(d);
    }
    assert ENGINE_A == THREE[0] && ENGINE_B == THREE[1];
    if ENGINE_A in batch && ENGINE_B in batch {
      TwoInBatch(batch);
    }
    DistinctIdsCount(batch);
    assert IdsOf(batch) <= THREE_ENGINES.Keys;
    assert THREE_ENGINES.Keys == {"a", "b", "c"};
    SubsetCard(IdsOf(batch), THREE_ENGINES.Keys);
  }

  lemma TwoInBatch(batch: seq<Engine>)
    requires ENGINE_A in batch && ENGINE_B in batch
    ensures |batch| >= 2
  {
    var i :| 0 <= i < |batch| && batch[i] == ENGINE_A;
    var j :| 0 <= j < |batch| && batch[j] == ENGINE_B;
    assert i != j;
  }

  const ENGINE_A := Engine("a", "", false, Healthy, false, 0, 0)
  const ENGINE_B := Engine("b", "", false, Healthy, false, 0, 0)
  const ENGINE_C := Engine("c", "", false, Healthy, false, 0, 0)
  const THREE := [ENGINE_A, ENGINE_B, ENGINE_C]
  const THREE_ENGINES := map["a" := ENGINE_A, "b" := ENGINE_B, "c" := ENGINE_C]

  lemma ThreeMayStop(d: Engine)
    requires d in THREE
    ensures Pickable(THREE_ENGINES, NO_LOADS, {}, Config(2, 0, 0, 0, 0), map[], d, 0)
  {
    assert THREE_ENGINES.Keys == {"a", "b", "c"};
    assert |THREE_ENGINES| == |THREE_ENGINES.Keys| == 3;
  }

  /** The batch is the front of the sorted candidates. */
  lemma BatchMembers(l: Loads, sorted: seq<Scored>, batch: seq<Engine>)
    requires |batch| <= |sorted| && forall k :: 0 <= k < |batch| ==> batch[k] == sorted[..|batch|][k].e
    requires forall x :: x in sorted ==> x == ScoreOf(l, x.e)
    ensures forall e :: e in batch ==> ScoreOf(l, e) in sorted[..|batch|] && ScoreOf(l, e) in sorted
    ensures forall x :: x in sorted[..|batch|] ==> x.e in batch
  {
    forall e | e in batch ensures ScoreOf(l, e) in sorted[..|batch|] && ScoreOf(l, e) in sorted {
      var k :| 0 <= k < |batch| && batch[k] == e;
      assert sorted[..|batch|][k] in sorted;
    }
    forall x | x in sorted[..|batch|] ensures x.e in batch {
      var k :| 0 <= k < |batch| && sorted[..|batch|][k] == x;
      assert batch[k] == x.e;
    }
  }

  lemma BatchDistinct(sorted: seq<Scored>, batch: seq<Engine>)
    requires DistinctScored(sorted) && |batch| <= |sorted|
    requires forall k :: 0 <= k < |batch| ==> batch[k] == sorted[..|batch|][k].e
    ensures DistinctIds(batch)
  {
  }

  lemma PickedIsIdle(engines: map<Id, Engine>, l: Loads, healthy: set<string>, cfg: Config,
                     emptyAt: map<Id, int>, e: Engine, now: int)
    requires Pickable(engines, l, healthy, cfg, emptyAt, e, now)
    ensures EngineLoad(l, e.containerId) == 0 && !LeaderNeeded(engines, e)
  {
  }

  // ---- the density pass ----

  /** The engines are the same but for some that are now draining. */
  ghost predicate OnlyDrains(a: map<Id, Engine>, b: map<Id, Engine>) {
    a.Keys == b.Keys && forall id :: id in a ==> b[id] == a[id] || b[id] == a[id].(draining := true)
  }

  /** The ids that a pass from a to b set draining. */
  function NewlyDrained(a: map<Id, Engine>, b: map<Id, Engine>): set<Id> {
    set id | id in a && id in b && !a[id].draining && b[id].draining
  }

  /** Healthy engines of a node in the pass's snapshot, by id. */
  function HealthyOn(active: seq<Engine>, v: string): set<Id> {
    set e | e in active && e.vpn == v && e.health == Healthy :: e.containerId
  }

  /** The snapshot shows the store's own engines: labels and health agree. */
  ghost predicate Snapshot(engines: map<Id, Engine>, active: seq<Engine>) {
    DistinctIds(active)
    && forall e :: e in active && e.containerId in engines ==>
         engines[e.containerId].vpn == e.vpn && engines[e.containerId].forwarded == e.forwarded
         && engines[e.containerId].health == e.health
  }

  /** An engine on the node is already draining. */
  predicate SomeDraining(engines: map<Id, Engine>, v: string) {
    exists id :: id in OnNode(engines, v) && engines[id].draining
  }

  /** A leader that is healthy or starting, and stays. */
  predicate HasLeader(engines: map<Id, Engine>, v: string) {
    exists id :: id in OnNode(engines, v) && engines[id].forwarded && !engines[id].draining && engines[id].health != Unhealthy
  }

  /** The stabilization age of a follower. */
  const STABLE: int := 10_000_000_000

  predicate LighterLoad(a: Scored, b: Scored) {
    a.streams < b.streams
  }

  lemma LighterLoadIsStrictWeak()
    ensures StrictWeak(LighterLoad)
  {
  }

  /** What a density pass may do to one node with these healthy engines. */
  ghost predicate NodePass(before: map<Id, Engine>, after: map<Id, Engine>, healthyOn: set<Id>, limit: int) {
    var drained := NewlyDrained(before, after);
    && OnlyDrains(before, after)
    && drained <= healthyOn
    && (forall id :: id in drained ==> !before[id].forwarded)
    && (|healthyOn| > limit ==> |healthyOn - drained| >= limit)
    && (drained != {} ==> |healthyOn - drained| >= 1)
  }

  method AnyDraining(st: Store, v: string) returns (b: bool)
    ensures b <==> SomeDraining(st.engines, v)
  {
    var rest := st.engines.Keys;
    while rest != {}
      invariant rest <= st.engines.Keys
      invariant forall id :: id in OnNode(st.engines, v) && id !in rest ==> !st.engines[id].draining
      decreases rest
    {
      var id :| id in rest;
      rest := rest - {id};
      if st.engines[id].vpn == v && st.engines[id].draining {
        assert id in OnNode(st.engines, v);
        return true;
      }
    }
    return false;
  }

  method AnyLeader(st: Store, v: string) returns (b: bool)
    ensures b <==> HasLeader(st.engines, v)
  {
    var rest := st.engines.Keys;
    while rest != {}
      invariant rest <= st.engines.Keys
      invariant forall id :: id in OnNode(st.engines, v) && id !in rest ==>
        !(st.engines[id].forwarded && !st.engines[id].draining && st.engines[id].health != Unhealthy)
      decreases rest
    {
      var id :| id in rest;
      rest := rest - {id};
      if st.engines[id].vpn == v && st.engines[id].forwarded && !st.engines[id].draining && st.engines[id].health != Unhealthy {
        assert id in OnNode(st.engines, v);
        return true;
      }
    }
    return false;
  }

  /** The snapshot's healthy engines of one node. */
  method HealthyEngines(active: seq<Engine>, v: string) returns (es: seq<Engine>)
    requires DistinctIds(active)
    ensures DistinctIds(es) && forall e :: e in es <==> e in active && e.vpn == v && e.health == Healthy
    ensures |es| == |HealthyOn(active, v)|
  {
    es := [];
    for i := 0 to |active|
      invariant forall e :: e in es <==> e in active[..i] && e.vpn == v && e.health == Healthy
      invariant DistinctIds(es)
    {
      assert active[..i + 1] == active[..i] + [active[i]];
      if active[i].vpn == v && active[i].health == Healthy {
        DistinctSnoc(active, i, es);
        es := es + [active[i]];
      }
    }
    assert active[..|active|] == active;
    HealthyIds(active, es, v);
    DistinctIdsCount(es);
  }

  lemma DistinctSnoc(active: seq<Engine>, i: nat, es: seq<Engine>)
    requires DistinctIds(active) && i < |active| && DistinctIds(es) && forall e :: e in es ==> e in active[..i]
    ensures DistinctIds(es + [active[i]]) && active[i] !in es
  {
    forall d | d in es ensures d.containerId != active[i].containerId {
      var k :| 0 <= k < i && active[..i][k] == d;
      assert active[k] == d;
    }
  }

  lemma {:induction false} DistinctIdsCount(es: seq<Engine>)
    requires DistinctIds(es)
    ensures |IdsOf(es)| == |es|
  {
    if es == [] {
      assert IdsOf(es) == {};
    } else {
      hide IdsOf, DistinctIds;
      var n := |es| - 1;
      DistinctFront(es);
      DistinctIdsCount(es[..n]);
      IdsSnoc(es[..n], es[n]);
      LastIdFresh(es);
      assert es == es[..n] + [es[n]];
    }
  }

  lemma DistinctFront(es: seq<Engine>)
    requires DistinctIds(es) && es != []
    ensures DistinctIds(es[..|es| - 1])
  {
  }

  lemma LastIdFresh(es: seq<Engine>)
    requires DistinctIds(es) && es != []
    ensures es[|es| - 1].containerId !in IdsOf(es[..|es| - 1])
  {
  }

  /** The followers with their loads. */
  method ScoreFollowers(st: Store, es: seq<Engine>) returns (followers: seq<Scored>)
    requires DistinctIds(es)
    ensures forall s :: s in followers <==> s.e in es && !s.e.forwarded && s == ScoreOf(st.LoadsView(), s.e)
    ensures DistinctScored(followers)
  {
    ghost var l := st.LoadsView();
    followers := [];
    for i := 0 to |es|
      invariant forall s :: s in followers <==> s.e in es[..i] && !s.e.forwarded && s == ScoreOf(l, s.e)
      invariant DistinctScored(followers)
    {
      assert es[..i + 1] == es[..i] + [es[i]];
      if !es[i].forwarded {
        ScoredSnoc(es, i, followers, EngineLoad(st.LoadsView(), es[i].containerId));
        followers := followers + [Scored(es[i], EngineLoad(st.LoadsView(), es[i].containerId))];
      }
    }
    assert es[..|es|] == es;
  }

  ghost predicate DistinctScored(ss: seq<Scored>) {
    forall i, j :: 0 <= i < j < |ss| ==> ss[i].e.containerId != ss[j].e.containerId
  }

  /** The stable ones of a sorted list, in its order; from says where each comes from. */
  method KeepStable(sorted: seq<Scored>, now: int) returns (stable: seq<Engine>, ghost from: seq<nat>)
    ensures |from| == |stable|
    ensures forall k :: 0 <= k < |stable| ==>
      from[k] < |sorted| && stable[k] == sorted[from[k]].e && now - stable[k].firstSeen > STABLE
    ensures forall a, b :: 0 <= a < b < |from| ==> from[a] < from[b]
    ensures forall s :: s in sorted && now - s.e.firstSeen > STABLE ==> s.e in stable
  {
    stable, from := [], [];
    for i := 0 to |sorted|
      invariant |from| == |stable|
      invariant forall k :: 0 <= k < |stable| ==>
        from[k] < i && stable[k] == sorted[from[k]].e && now - stable[k].firstSeen > STABLE
      invariant forall a, b :: 0 <= a < b < |from| ==> from[a] < from[b]
      invariant forall k :: 0 <= k < i && now - sorted[k].e.firstSeen > STABLE ==> sorted[k].e in stable
    {
      if now - sorted[i].e.firstSeen > STABLE {
        stable := stable + [sorted[i].e];
        from := from + [i];
      }
    }
  }

  /** Followers lightest first, and of those the stable ones. */
  method StableFollowers(st: Store, es: seq<Engine>, now: int) returns (stable: seq<Engine>)
    requires DistinctIds(es)
    ensures forall e :: e in stable <==> e in es && !e.forwarded && now - e.firstSeen > STABLE
    ensures DistinctIds(stable)
    ensures forall i, j :: 0 <= i < j < |stable| ==>
      EngineLoad(st.LoadsView(), stable[i].containerId) <= EngineLoad(st.LoadsView(), stable[j].containerId)
  {
    hide DistinctIds, DistinctScored, Sorted;
    var followers := ScoreFollowers(st, es);
    LighterLoadIsStrictWeak();
    var sorted := SortSlice(followers, LighterLoad);
    SameMembers(sorted, followers);
    DistinctSurvivesSort(followers, sorted);
    ghost var from;
    stable, from := KeepStable(sorted, now);
    StableAre(st.LoadsView(), es, sorted, stable, from, now);
  }

  lemma StableAre(l: Loads, es: seq<Engine>, sorted: seq<Scored>, stable: seq<Engine>, from: seq<nat>, now: int)
    requires forall s :: s in sorted <==> s.e in es && !s.e.forwarded && s == ScoreOf(l, s.e)
    requires Sorted(sorted, LighterLoad) && DistinctScored(sorted) && |from| == |stable|
    requires forall k :: 0 <= k < |stable| ==>
      from[k] < |sorted| && stable[k] == sorted[from[k]].e && now - stable[k].firstSeen > STABLE
    requires forall a, b :: 0 <= a < b < |from| ==> from[a] < from[b]
    requires forall s :: s in sorted && now - s.e.firstSeen > STABLE ==> s.e in stable
    ensures forall e :: e in stable <==> e in es && !e.forwarded && now - e.firstSeen > STABLE
    ensures DistinctIds(stable)
    ensures forall i, j :: 0 <= i < j < |stable| ==> EngineLoad(l, stable[i].containerId) <= EngineLoad(l, stable[j].containerId)
  {
    forall e | e in es && !e.forwarded && now - e.firstSeen > STABLE ensures e in stable {
      assert ScoreOf(l, e) in sorted;
    }
    forall k | 0 <= k < |stable| ensures ScoreOf(l, stable[k]) == sorted[from[k]] && stable[k] in es && !stable[k].forwarded {
      assert sorted[from[k]] in sorted;
    }
  }

  /** Distinct engine ids stay distinct in a permutation. */
  lemma DistinctSurvivesSort(a: seq<Scored>, b: seq<Scored>)
    requires multiset(a) == multiset(b) && DistinctScored(a)
    ensures DistinctScored(b)
  {
    SameMembers(a, b);
    forall i, j | 0 <= i < j < |b| ensures b[i].e.containerId != b[j].e.containerId {
      assert b[i] in b && b[j] in b;
      var p :| 0 <= p < |a| && a[p] == b[i];
      var q :| 0 <= q < |a| && a[q] == b[j];
      OnceInMultiset(a, p);
      TwiceInMultiset(b, i, j);
      assert p != q;
    }
  }

  lemma TwiceInMultiset(s: seq<Scored>, i: nat, j: nat)
    requires i < j < |s|
    ensures s[i] == s[j] ==> multiset(s)[s[i]] >= 2
  {
    assert s == s[..j] + s[j..];
    assert multiset(s) == multiset(s[..j]) + multiset(s[j..]);
    assert s[..j][i] in multiset(s[..j]) && s[j..][0] in multiset(s[j..]);
  }

  lemma OnceInMultiset(s: seq<Scored>, p: nat)
    requires p < |s| && forall k :: 0 <= k < |s| && k != p ==> s[k] != s[p]
    ensures multiset(s)[s[p]] == 1
  {
    assert s == s[..p] + [s[p]] + s[p + 1..];
    assert multiset(s) == multiset(s[..p]) + multiset{s[p]} + multiset(s[p + 1..]);
    assert s[p] !in s[..p] && s[p] !in s[p + 1..];
    assert s[p] !in multiset(s[..p]) && s[p] !in multiset(s[p + 1..]);
  }

  lemma DrainOne(before: map<Id, Engine>, mid: map<Id, Engine>, id: Id)
    requires OnlyDrains(before, mid) && id in mid
    ensures var after := if mid[id].draining then mid else mid[id := mid[id].(draining := true)];
      OnlyDrains(before, after)
      && NewlyDrained(before, after) <= NewlyDrained(before, mid) + {id}
  {
  }

  /** Marks a list of engines draining; unknown and already draining ones are passed over. */
  method DrainAll(st: Store, es: seq<Engine>)
    requires st.Valid() && Snapshot(st.engines, es)
    modifies st`engines
    ensures st.Valid() && OnlyDrains(old(st.engines), st.engines)
    ensures NewlyDrained(old(st.engines), st.engines) <= IdsOf(es)
    ensures |NewlyDrained(old(st.engines), st.engines)| <= |es|
    ensures forall id :: id in IdsOf(es) && id in st.engines ==> st.engines[id].draining
  {
    hide Snapshot, NewlyDrained, IdsOf;
    NothingNew(st.engines);
    ghost var before := st.engines;
    for i := 0 to |es|
      invariant st.Valid() && OnlyDrains(before, st.engines)
      invariant NewlyDrained(before, st.engines) <= IdsOf(es[..i])
      invariant forall id :: id in IdsOf(es[..i]) && id in st.engines ==> st.engines[id].draining
    {
      assert es[..i + 1] == es[..i] + [es[i]];
      IdsSnoc(es[..i], es[i]);
      if es[i].containerId in st.engines {
        DrainOne(before, st.engines, es[i].containerId);
      }
      var marked := st.MarkEngineDraining(es[i].containerId);
    }
    assert es[..|es|] == es;
    IdsCount(es);
    SubsetCard(NewlyDrained(before, st.engines), IdsOf(es));
  }

  lemma NothingNew(engines: map<Id, Engine>)
    ensures NewlyDrained(engines, engines) == {} && IdsOf([]) == {}
  {
  }

  function IdsOf(es: seq<Engine>): set<Id> {
    set e | e in es :: e.containerId
  }

  lemma IdsSnoc(es: seq<Engine>, e: Engine)
    ensures IdsOf(es + [e]) == IdsOf(es) + {e.containerId}
  {
    assert e in es + [e];
  }

  lemma {:induction false} IdsCount(es: seq<Engine>)
    ensures |IdsOf(es)| <= |es|
  {
    if es != [] {
      var n := |es| - 1;
      IdsCount(es[..n]);
      IdsSnoc(es[..n], es[n]);
      assert es == es[..n] + [es[n]];
    }
  }

  lemma SubsetCard(a: set<Id>, b: set<Id>)
    requires a <= b
    ensures |a| <= |b| && |b - a| == |b| - |a|
  {
    assert b == a + (b - a);
  }

  // ---- one node of the pass ----

  predicate StableFollower(e: Engine, now: int) {
    !e.forwarded && now - e.firstSeen > STABLE
  }

  /** Of the healthy engines of a node, the stable followers. */
  function StableOn(active: seq<Engine>, v: string, now: int): set<Id> {
    set e | e in active && e.vpn == v && e.health == Healthy && StableFollower(e, now) :: e.containerId
  }

  function StableIds(es: seq<Engine>, now: int): set<Id> {
    set e | e in es && StableFollower(e, now) :: e.containerId
  }

  /** ids are the lightest of pool, as many as wanted and there are. */
  ghost predicate AreLightest(l: Loads, ids: set<Id>, pool: set<Id>, wanted: int) {
    ids <= pool && |ids| == Min(wanted, |pool|)
    && forall d, f :: d in ids && f in pool - ids ==> EngineLoad(l, d) <= EngineLoad(l, f)
  }

  /** Relief: exactly the excess, or all the stable followers if they are fewer, of
      the lightest; those gone from the store meanwhile are passed over. */
  ghost predicate Relieved(l: Loads, engines: map<Id, Engine>, drained: set<Id>, stable: set<Id>, excess: int) {
    exists ids :: AreLightest(l, ids, stable, excess) && drained == ids * engines.Keys
  }

  /** Replacement: one idlest engine, unless it is gone or draining already. */
  ghost predicate Replaced(l: Loads, engines: map<Id, Engine>, drained: set<Id>, ids: set<Id>) {
    exists id :: id in ids && (forall o :: o in ids ==> EngineLoad(l, id) <= EngineLoad(l, o))
      && drained == if id in engines && !engines[id].draining then {id} else {}
  }

  /** Draining some followers of a node, no more than the excess, is within the pass. */
  lemma ReliefIsNodePass(before: map<Id, Engine>, after: map<Id, Engine>, es: seq<Engine>, toDrain: seq<Engine>, limit: int)
    requires Snapshot(before, es) && OnlyDrains(before, after) && limit >= 1
    requires forall e :: e in toDrain ==> e in es && !e.forwarded
    requires NewlyDrained(before, after) <= IdsOf(toDrain) && |NewlyDrained(before, after)| <= |IdsOf(es)| - limit
    ensures NodePass(before, after, IdsOf(es), limit)
  {
    var drained := NewlyDrained(before, after);
    assert IdsOf(toDrain) <= IdsOf(es);
    SubsetCard(drained, IdsOf(es));
    forall id | id in drained ensures !before[id].forwarded {
      var e :| e in toDrain && e.containerId == id;
    }
  }

  lemma PrefixIds(stable: seq<Engine>, n: nat)
    requires n <= |stable|
    ensures forall j :: 0 <= j < n ==> stable[j].containerId in IdsOf(stable[..n])
  {
    forall j | 0 <= j < n ensures stable[j].containerId in IdsOf(stable[..n]) {
      assert stable[..n][j] == stable[j];
    }
  }

  lemma StableSize(es: seq<Engine>, stable: seq<Engine>, now: int)
    requires DistinctIds(stable) && forall e :: e in stable <==> e in es && StableFollower(e, now)
    ensures IdsOf(stable) == StableIds(es, now) && |StableIds(es, now)| == |stable|
  {
    assert IdsOf(stable) == StableIds(es, now);
    DistinctIdsCount(stable);
  }

  /** Ids of a prefix and of the rest. */
  lemma PrefixOrRest(stable: seq<Engine>, n: nat, id: Id)
    requires n <= |stable| && id in IdsOf(stable) && id !in IdsOf(stable[..n])
    ensures exists j :: n <= j < |stable| && stable[j].containerId == id
  {
    var e :| e in stable && e.containerId == id;
    var j :| 0 <= j < |stable| && stable[j] == e;
    if j < n {
      PrefixIds(stable, n);
    }
  }

  /** The front of a list sorted by load is the lightest part of it. */
  lemma PrefixIsLightest(l: Loads, stable: seq<Engine>, n: nat)
    requires DistinctIds(stable) && n <= |stable|
    requires forall i, j :: 0 <= i < j < |stable| ==> EngineLoad(l, stable[i].containerId) <= EngineLoad(l, stable[j].containerId)
    ensures IdsOf(stable[..n]) <= IdsOf(stable) && |IdsOf(stable[..n])| == n
    ensures forall d, f :: d in IdsOf(stable[..n]) && f in IdsOf(stable) - IdsOf(stable[..n]) ==> EngineLoad(l, d) <= EngineLoad(l, f)
  {
    DistinctIdsCount(stable[..n]);
    assert forall e :: e in stable[..n] ==> e in stable;
    forall d, f | d in IdsOf(stable[..n]) && f in IdsOf(stable) - IdsOf(stable[..n])
      ensures EngineLoad(l, d) <= EngineLoad(l, f)
    {
      PrefixOrRest(stable, n, f);
      var j :| n <= j < |stable| && stable[j].containerId == f;
      var e :| e in stable[..n] && e.containerId == d;
      var i :| 0 <= i < n && stable[..n][i] == e;
      assert stable[i] == e;
    }
  }

  lemma PrefixRelieves(l: Loads, before: map<Id, Engine>, drained: set<Id>, es: seq<Engine>, stable: seq<Engine>,
                       n: nat, excess: int, now: int)
    requires DistinctIds(stable) && n == Min(excess, |stable|)
    requires forall e :: e in stable <==> e in es && StableFollower(e, now)
    requires forall i, j :: 0 <= i < j < |stable| ==> EngineLoad(l, stable[i].containerId) <= EngineLoad(l, stable[j].containerId)
    requires drained <= IdsOf(stable[..n]) && drained <= before.Keys
    requires forall id :: id in IdsOf(stable[..n]) && id in before ==> id in drained
    ensures Relieved(l, before, drained, StableIds(es, now), excess)
  {
    hide IdsOf, DistinctIds, StableIds, EngineLoad;
    StableSize(es, stable, now);
    PrefixIsLightest(l, stable, n);
    assert AreLightest(l, IdsOf(stable[..n]), StableIds(es, now), excess);
    assert drained == IdsOf(stable[..n]) * before.Keys;
  }

  /** The over-limit branch: drain at most the excess, the lightest stable
      followers, and nothing while a drain is under way. */
  method RelieveNode(st: Store, es: seq<Engine>, v: string, limit: int, now: int)
    requires st.Valid() && Snapshot(st.engines, es) && |es| == |IdsOf(es)| > limit >= 1
    requires forall e :: e in es ==> e.vpn == v
    modifies st`engines
    ensures st.Valid() && NodePass(old(st.engines), st.engines, IdsOf(es), limit)
    ensures SomeDraining(old(st.engines), v) ==> st.engines == old(st.engines)
    ensures !SomeDraining(old(st.engines), v) ==>
      Relieved(old(st.LoadsView()), old(st.engines), NewlyDrained(old(st.engines), st.engines), StableIds(es, now), |es| - limit)
  {
    hide NodePass, SomeDraining, Relieved, NewlyDrained, IdsOf, OnlyDrains, StableIds;
    ghost var before, l := st.engines, st.LoadsView();
    NothingDrained(before, es, limit);
    var busy := AnyDraining(st, v);
    if busy {
      return;
    }
    var excess := |es| - limit;
    var stable := StableFollowers(st, es, now);
    var toDrain := stable;
    if |toDrain| > excess {
      toDrain := toDrain[..excess];
    }
    ghost var n := |toDrain|;
    assert toDrain == stable[..n];
    PartSnapshot(before, es, stable, n);
    DrainAll(st, toDrain);
    ReliefIsNodePass(before, st.engines, es, toDrain, limit);
    NoneDrainingBefore(before, st.engines, es, toDrain, v);
    DrainedWere(before, st.engines);
    PrefixRelieves(l, before, NewlyDrained(before, st.engines), es, stable, n, excess, now);
  }

  lemma PartSnapshot(engines: map<Id, Engine>, es: seq<Engine>, stable: seq<Engine>, n: nat)
    requires Snapshot(engines, es) && DistinctIds(stable) && n <= |stable| && forall e :: e in stable ==> e in es
    ensures Snapshot(engines, stable[..n]) && forall e :: e in stable[..n] ==> e in stable
  {
  }

  /** On a node where nothing was draining, whatever is marked is newly drained. */
  lemma NoneDrainingBefore(before: map<Id, Engine>, after: map<Id, Engine>, es: seq<Engine>, toDrain: seq<Engine>, v: string)
    requires !SomeDraining(before, v) && Snapshot(before, es) && OnlyDrains(before, after)
    requires forall e :: e in toDrain ==> e in es && e.vpn == v
    requires forall id :: id in IdsOf(toDrain) && id in after ==> after[id].draining
    ensures forall id :: id in IdsOf(toDrain) && id in before ==> id in NewlyDrained(before, after)
  {
    forall id | id in IdsOf(toDrain) && id in before ensures id in NewlyDrained(before, after) {
      assert id in OnNode(before, v);
    }
  }

  lemma NothingDrained(engines: map<Id, Engine>, es: seq<Engine>, limit: int)
    ensures NodePass(engines, engines, IdsOf(es), limit)
    ensures NewlyDrained(engines, engines) == {}
  {
    assert NewlyDrained(engines, engines) == {};
    assert IdsOf(es) - {} == IdsOf(es);
  }

  lemma DrainedWere(before: map<Id, Engine>, after: map<Id, Engine>)
    ensures NewlyDrained(before, after) <= before.Keys
  {
  }

  /** The headless branch: with no leader, registered or pending, on a node that
      could have one, the idlest engine is drained to make room for a leader. */
  method CorrectHeadless(st: Store, es: seq<Engine>, v: string, capable: bool, limit: int)
    requires st.Valid() && Snapshot(st.engines, es) && |es| == |IdsOf(es)| <= limit
    requires forall e :: e in es ==> e.vpn == v && e.health == Healthy
    modifies st`engines
    ensures st.Valid() && NodePass(old(st.engines), st.engines, IdsOf(es), limit)
    ensures HasLeader(old(st.engines), v) || v in st.forwardedPending || !capable || |es| < 2 ==> st.engines == old(st.engines)
    ensures !HasLeader(old(st.engines), v) && v !in st.forwardedPending && capable && |es| >= 2 ==>
      Replaced(old(st.LoadsView()), old(st.engines), NewlyDrained(old(st.engines), st.engines), IdsOf(es))
  {
    hide NodePass, NewlyDrained, IdsOf, HasLeader, Replaced, EngineLoad, Sorted;
    ghost var before := st.engines;
    NothingDrained(before, es, limit);
    if !capable {
      return;
    }
    var hasLeader := AnyLeader(st, v);
    if hasLeader || v in st.forwardedPending || |es| < 2 {
      return;
    }
    var scored: seq<Scored> := [];
    for i := 0 to |es|
      invariant |scored| == i && forall k :: 0 <= k < i ==> scored[k] == ScoreOf(st.LoadsView(), es[k])
    {
      scored := scored + [Scored(es[i], EngineLoad(st.LoadsView(), es[i].containerId))];
    }
    LighterLoadIsStrictWeak();
    var sorted := SortSlice(scored, LighterLoad);
    SameMembers(sorted, scored);
    var e := sorted[0].e;
    assert sorted[0] in scored;
    assert e in es;
    var marked := st.MarkEngineDraining(e.containerId);
    HeadlessIsNodePass(before, st.engines, es, e, v, limit);
    FirstIsIdlest(st.LoadsView(), es, scored, sorted);
    IdlestReplaced(st.LoadsView(), before, st.engines, es, e);
  }

  lemma FirstIsIdlest(l: Loads, es: seq<Engine>, scored: seq<Scored>, sorted: seq<Scored>)
    requires |scored| == |es| > 0 && forall k :: 0 <= k < |es| ==> scored[k] == ScoreOf(l, es[k])
    requires Sorted(sorted, LighterLoad) && |sorted| == |scored| && forall s :: s in sorted <==> s in scored
    ensures forall o :: o in IdsOf(es) ==> EngineLoad(l, sorted[0].e.containerId) <= EngineLoad(l, o)
  {
    assert sorted[0] in scored;
    forall o | o in IdsOf(es) ensures EngineLoad(l, sorted[0].e.containerId) <= EngineLoad(l, o) {
      var e :| e in es && e.containerId == o;
      var k :| 0 <= k < |es| && es[k] == e;
      assert scored[k] in sorted;
      var j :| 0 <= j < |sorted| && sorted[j] == scored[k];
      assert j > 0 ==> !LighterLoad(sorted[j], sorted[0]);
    }
  }

  lemma IdlestReplaced(l: Loads, before: map<Id, Engine>, after: map<Id, Engine>, es: seq<Engine>, e: Engine)
    requires e in es && forall o :: o in IdsOf(es) ==> EngineLoad(l, e.containerId) <= EngineLoad(l, o)
    requires after == if e.containerId in before && !before[e.containerId].draining
                      then before[e.containerId := before[e.containerId].(draining := true)] else before
    ensures Replaced(l, before, NewlyDrained(before, after), IdsOf(es))
  {
    var id := e.containerId;
    assert id in IdsOf(es);
    assert NewlyDrained(before, after) == if id in before && !before[id].draining then {id} else {};
  }

  lemma HeadlessIsNodePass(before: map<Id, Engine>, after: map<Id, Engine>, es: seq<Engine>, e: Engine, v: string, limit: int)
    requires Snapshot(before, es) && e in es && e.vpn == v && e.health == Healthy
    requires !HasLeader(before, v) && 2 <= |IdsOf(es)| <= limit
    requires after == if e.containerId in before && !before[e.containerId].draining
                      then before[e.containerId := before[e.containerId].(draining := true)] else before
    ensures NodePass(before, after, IdsOf(es), limit)
  {
    var drained := NewlyDrained(before, after);
    assert drained <= {e.containerId} <= IdsOf(es);
    SubsetCard(drained, IdsOf(es));
    SubsetCard(drained, {e.containerId});
    assert e.containerId in before ==> e.containerId in OnNode(before, v);
  }

  // ---- the whole pass ----

  /** A VPN node as the pass sees it; capable: it supports port forwarding. */
  datatype PassNode = PassNode(name: string, managed: bool, healthy: bool, draining: bool, healthySince: Option<int>, capable: bool)

  const REBALANCE_STABILIZE: int := 5_000_000_000
  const SCALE_UP_QUIET: int := 10_000_000_000

  function ReadyCount(nodes: seq<PassNode>): nat {
    if nodes == [] then 0
    else
      var n := nodes[|nodes| - 1];
      ReadyCount(nodes[..|nodes| - 1]) + if n.managed && n.healthy && !n.draining then 1 else 0
  }

  /** The nodes the desired engines need. For a preference of zero the source turns
      an infinite quotient into an integer, which its language leaves open: any
      number. */
  function NodesNeeded(cfg: Config, desired: int, anyNumber: int): int {
    if cfg.preferredPerVpn > 0 then CeilDiv(desired, cfg.preferredPerVpn)
    else if cfg.preferredPerVpn < 0 then CeilDiv(-desired, -cfg.preferredPerVpn)
    else anyNumber
  }

  /** The per-node limit of the pass. */
  function PassLimit(cfg: Config, desired: int, required: int, ready: nat): int {
    var ideal := Min(CeilDiv(desired, Max(1, required)), cfg.preferredPerVpn);
    var limit := Max(ideal, CeilDiv(desired, Max(1, ready)));
    if cfg.maxPerVpn > 0 && limit > cfg.maxPerVpn && ready >= required then cfg.maxPerVpn else limit
  }

  /** The limit leaves at least one engine, and is never above the larger of the
      two configured limits and the fair share of the ready nodes. */
  lemma PassLimitPositive(cfg: Config, desired: int, required: int, ready: nat)
    requires desired > 0
    ensures 1 <= PassLimit(cfg, desired, required, ready)
      <= Max(Max(cfg.preferredPerVpn, cfg.maxPerVpn), CeilDiv(desired, Max(1, ready)))
  {
    hide CeilDiv;
    CeilDivPositive(desired, Max(1, ready));
  }

  /** n is the least number with n * unit >= total. */
  predicate Least(n: int, unit: int, total: int) {
    (n - 1) * unit < total <= n * unit
  }

  lemma LeastCeil(total: int, unit: int)
    requires unit > 0
    ensures Least(CeilDiv(total, unit), unit, total)
  {
    hide CeilDiv;
    CeilDivBounds(total, unit);
  }

  lemma {:induction false} LeastUnique(m: int, n: int, unit: int, total: int)
    requires unit > 0 && Least(m, unit, total) && Least(n, unit, total)
    ensures m == n
  {
    if m < n {
      MulMore(m, n - 1, unit);
    } else if n < m {
      MulMore(n, m - 1, unit);
    }
  }

  /** A larger unit never needs more of them. */
  lemma LeastMonotone(m: int, n: int, small: int, large: int, total: int)
    requires 0 < small <= large && total > 0 && Least(m, small, total) && Least(n, large, total)
    ensures n <= m
  {
    if m < n {
      LeastPositive(m, small, total);
      MulMore(small, large, m);
      assert m * small <= m * large;
      MulMore(m, n - 1, large);
    }
  }

  lemma LeastPositive(n: int, unit: int, total: int)
    requires unit > 0 && total > 0 && Least(n, unit, total)
    ensures n >= 1
  {
    if n <= 0 {
      MulNonPositive(n, unit);
    }
  }

  /** The limit of a pass, exactly. With a positive preference required is the least
      number of nodes that hold the desired engines at the preference. If as many
      are ready, the limit is their fair share, the least per node that holds them
      all, cut to the configured maximum if that is positive and lower. If fewer
      are ready it is the fair share of those, uncut. */
  lemma PassLimitExactly(cfg: Config, desired: int, anyNumber: int, ready: nat)
    requires desired > 0 && cfg.preferredPerVpn > 0
    ensures var required := NodesNeeded(cfg, desired, anyNumber);
      var over := if ready >= required then required else Max(1, ready);
      Least(required, cfg.preferredPerVpn, desired)
      && forall share: int ::
           Least(share, over, desired) ==>
             PassLimit(cfg, desired, required, ready) ==
               if ready >= required && 0 < cfg.maxPerVpn < share then cfg.maxPerVpn else share
  {
    hide CeilDiv, Least;
    LeastCeil(desired, cfg.preferredPerVpn);
    var required := CeilDiv(desired, cfg.preferredPerVpn);
    CeilDivPositive(desired, cfg.preferredPerVpn);
    LeastCeil(desired, required);
    LeastCeil(desired, Max(1, ready));
    IdealBelowPreference(desired, cfg.preferredPerVpn, required);
    var unit := if ready >= required then required else Max(1, ready);
    if ready >= required {
      LeastMonotone(CeilDiv(desired, required), CeilDiv(desired, Max(1, ready)), required, Max(1, ready), desired);
    } else {
      LeastMonotone(CeilDiv(desired, Max(1, ready)), CeilDiv(desired, required), Max(1, ready), required, desired);
    }
    forall share: int | Least(share, unit, desired) ensures share == CeilDiv(desired, unit) {
      LeastUnique(share, CeilDiv(desired, unit), unit, desired);
    }
  }

  lemma SharesUnique(cfg: Config, desired: int, required: int)
    requires cfg.preferredPerVpn > 0 && Least(required, cfg.preferredPerVpn, desired)
    ensures forall r: int :: Least(r, cfg.preferredPerVpn, desired) ==> r == required
  {
    hide Least;
    forall r: int | Least(r, cfg.preferredPerVpn, desired) ensures r == required {
      LeastUnique(r, required, cfg.preferredPerVpn, desired);
    }
  }

  lemma IdealBelowPreference(desired: int, preferred: int, required: int)
    requires desired > 0 && preferred > 0 && required == CeilDiv(desired, preferred) >= 1
    ensures CeilDiv(desired, required) <= preferred
  {
    hide CeilDiv;
    CeilDivBounds(desired, preferred);
    assert required * preferred == preferred * required;
    CeilDivAtMost(desired, required, preferred);
  }

  /** Without a positive preference the fair share of the ready nodes decides. */
  lemma PassLimitUnpreferred(cfg: Config, desired: int, required: int, ready: nat)
    requires desired > 0 && cfg.preferredPerVpn <= 0
    ensures forall share: int ::
      Least(share, Max(1, ready), desired) ==>
        PassLimit(cfg, desired, required, ready) ==
          if ready >= required && 0 < cfg.maxPerVpn < share then cfg.maxPerVpn else share
  {
    hide CeilDiv, Least;
    LeastCeil(desired, Max(1, ready));
    CeilDivPositive(desired, Max(1, ready));
    forall share: int | Least(share, Max(1, ready), desired) ensures share == CeilDiv(desired, Max(1, ready)) {
      LeastUnique(share, CeilDiv(desired, Max(1, ready)), Max(1, ready), desired);
    }
  }

  /** The ready nodes, counted: managed, healthy and not draining. */
  lemma {:induction false} ReadyCountMeans(nodes: seq<PassNode>)
    ensures ReadyCount(nodes) == |set i | 0 <= i < |nodes| && nodes[i].managed && nodes[i].healthy && !nodes[i].draining|
  {
    if nodes != [] {
      var n := |nodes| - 1;
      ReadyCountMeans(nodes[..n]);
      var front := set i | 0 <= i < n && nodes[..n][i].managed && nodes[..n][i].healthy && !nodes[..n][i].draining;
      var all := set i | 0 <= i < |nodes| && nodes[i].managed && nodes[i].healthy && !nodes[i].draining;
      var one := if nodes[n].managed && nodes[n].healthy && !nodes[n].draining then {n} else {};
      assert n !in front;
      assert all == front + one;
    }
  }

  /** The reasons to skip the pass, in the order they are tried. */
  predicate Skips(nodes: seq<PassNode>, required: int, ready: int, now: int, lastScaleUp: Option<int>) {
    || (required > 0 && ready < required)
    || (exists n :: n in nodes && n.managed && n.draining)
    || (exists n :: n in nodes && n.managed && !n.draining && n.healthySince.Some?
          && now - n.healthySince.value < REBALANCE_STABILIZE && ready < required)
    || (lastScaleUp.Some? && now - lastScaleUp.value < SCALE_UP_QUIET && ready < required)
  }

  /** The two stabilization windows never decide anything: by the time they are
      tried there are always enough ready nodes for their exception. */
  lemma WindowsNeverDecide(nodes: seq<PassNode>, required: int, ready: int, now: int, lastScaleUp: Option<int>)
    requires ready >= 0
    ensures Skips(nodes, required, ready, now, lastScaleUp)
      <==> ready < required || exists n :: n in nodes && n.managed && n.draining
  {
  }

  /** What a density pass sees besides the engines. */
  datatype Scene = Scene(loads: Loads, leaderPending: set<string>, active: seq<Engine>, nodes: seq<PassNode>, limit: int, now: int)

  predicate Capable(nodes: seq<PassNode>, v: string) {
    exists n :: n in nodes && n.managed && n.name == v && n.capable
  }

  /** What a pass drains on one node, exactly. */
  ghost predicate Outcome(sc: Scene, engines: map<Id, Engine>, v: string, drained: set<Id>) {
    var ids := HealthyOn(sc.active, v);
    if |ids| <= 1 then drained == {}
    else if |ids| > sc.limit then
      if SomeDraining(engines, v) then drained == {}
      else Relieved(sc.loads, engines, drained, StableOn(sc.active, v, sc.now), |ids| - sc.limit)
    else if Capable(sc.nodes, v) && !HasLeader(engines, v) && v !in sc.leaderPending then
      Replaced(sc.loads, engines, drained, ids)
    else drained == {}
  }

  /** What is left of the healthy engines of a node. */
  ghost predicate NodeKept(drained: set<Id>, healthyOn: set<Id>, limit: int) {
    (|healthyOn| > limit ==> |healthyOn - drained| >= limit)
    && (healthyOn * drained != {} ==> |healthyOn - drained| >= 1)
  }

  /** Every node but those in rest has its outcome; those are untouched. */
  ghost predicate RestKept(sc: Scene, before: map<Id, Engine>, drained: set<Id>, rest: set<string>) {
    && (forall v :: v != "" && v !in rest ==>
          NodeKept(drained, HealthyOn(sc.active, v), sc.limit)
          && Outcome(sc, before, v, drained * HealthyOn(sc.active, v)))
    && (forall v :: v in rest ==> drained * HealthyOn(sc.active, v) == {})
  }

  /** The healthy engines behind any node. */
  function HealthyBehind(active: seq<Engine>): set<Id> {
    set e | e in active && e.vpn != "" && e.health == Healthy :: e.containerId
  }

  /** Nodes of the snapshot that have healthy engines. */
  function NodesInUse(active: seq<Engine>): set<string> {
    set e | e in active && e.vpn != "" && e.health == Healthy :: e.vpn
  }

  /** The pass so far: followers of visited nodes are drained, nothing else changes. */
  ghost predicate Progress(sc: Scene, before: map<Id, Engine>, cur: map<Id, Engine>, rest: set<string>) {
    var drained := NewlyDrained(before, cur);
    && OnlyDrains(before, cur)
    && drained <= HealthyBehind(sc.active)
    && (forall id :: id in drained ==> !before[id].forwarded)
    && RestKept(sc, before, drained, rest)
  }

  ghost predicate DensityOk(sc: Scene, before: map<Id, Engine>, after: map<Id, Engine>) {
    Progress(sc, before, after, {})
  }

  lemma HealthyApart(active: seq<Engine>, v: string, w: string)
    requires DistinctIds(active) && v != w
    ensures HealthyOn(active, v) * HealthyOn(active, w) == {}
  {
  }

  lemma HealthyPart(active: seq<Engine>, v: string)
    requires v != ""
    ensures HealthyOn(active, v) <= HealthyBehind(active)
  {
  }

  lemma DrainsCompose(a: map<Id, Engine>, b: map<Id, Engine>, c: map<Id, Engine>)
    requires OnlyDrains(a, b) && OnlyDrains(b, c)
    ensures OnlyDrains(a, c) && NewlyDrained(a, c) == NewlyDrained(a, b) + NewlyDrained(b, c)
  {
  }

  /** Draining elsewhere leaves a node's share as it was. */
  lemma ShareElsewhere(d: set<Id>, more: set<Id>, here: set<Id>, there: set<Id>, limit: int)
    requires more <= here && here * there == {}
    ensures (d + more) * there == d * there
    ensures NodeKept(d, there, limit) ==> NodeKept(d + more, there, limit)
  {
    assert more * there <= here * there;
    assert (d + more) * there == d * there + more * there;
    assert there - (d + more) == there - d by {
      forall x | x in there ensures x !in more {
        assert x in more ==> x in more * there;
      }
    }
    assert there * (d + more) == there * d;
  }

  /** The node just visited: nothing of it was drained before. */
  lemma ShareHere(d: set<Id>, more: set<Id>, here: set<Id>, limit: int)
    requires d * here == {} && more <= here
    requires (|here| > limit ==> |here - more| >= limit) && (more != {} ==> |here - more| >= 1)
    ensures (d + more) * here == more && NodeKept(d + more, here, limit)
  {
    forall x | x in here ensures x !in d {
      assert x in d ==> x in d * here;
    }
    assert here - (d + more) == here - more;
    assert here * (d + more) == more;
  }

  /** Draining within one node keeps every other node as it was. */
  lemma OthersKept(sc: Scene, before: map<Id, Engine>, d: set<Id>, more: set<Id>, rest: set<string>, v: string)
    requires DistinctIds(sc.active) && more <= HealthyOn(sc.active, v)
    requires RestKept(sc, before, d, rest) && NodeKept(d + more, HealthyOn(sc.active, v), sc.limit)
    requires Outcome(sc, before, v, (d + more) * HealthyOn(sc.active, v))
    ensures RestKept(sc, before, d + more, rest - {v})
  {
    hide HealthyOn, NodeKept, DistinctIds, Outcome;
    forall w | w != v
      ensures w != "" && w !in rest ==>
        NodeKept(d + more, HealthyOn(sc.active, w), sc.limit) && Outcome(sc, before, w, (d + more) * HealthyOn(sc.active, w))
      ensures w in rest ==> (d + more) * HealthyOn(sc.active, w) == {}
    {
      HealthyApart(sc.active, v, w);
      ShareElsewhere(d, more, HealthyOn(sc.active, v), HealthyOn(sc.active, w), sc.limit);
    }
  }

  lemma LeadersStillUntouched(before: map<Id, Engine>, mid: map<Id, Engine>, cur: map<Id, Engine>)
    requires OnlyDrains(before, mid) && OnlyDrains(mid, cur)
    requires forall id :: id in NewlyDrained(before, mid) ==> !before[id].forwarded
    requires forall id :: id in NewlyDrained(mid, cur) ==> !mid[id].forwarded
    ensures forall id :: id in NewlyDrained(before, cur) ==> !before[id].forwarded
  {
    DrainsCompose(before, mid, cur);
  }

  lemma HealthyOfNode(engines: map<Id, Engine>, active: seq<Engine>, v: string)
    requires Snapshot(engines, active)
    ensures forall id :: id in HealthyBehind(active) && id in engines && engines[id].vpn == v ==> id in HealthyOn(active, v)
  {
  }

  /** Before its visit a node is as it was at the start of the pass. */
  lemma NodeUntouched(before: map<Id, Engine>, mid: map<Id, Engine>, active: seq<Engine>, v: string)
    requires Snapshot(before, active) && OnlyDrains(before, mid)
    requires NewlyDrained(before, mid) <= HealthyBehind(active)
    requires NewlyDrained(before, mid) * HealthyOn(active, v) == {}
    ensures forall id :: id in before && before[id].vpn == v ==> mid[id] == before[id]
    ensures OnNode(mid, v) == OnNode(before, v)
  {
    HealthyOfNode(before, active, v);
    hide HealthyOn, HealthyBehind, Snapshot;
    forall id | id in NewlyDrained(before, mid) ensures before[id].vpn != v {
      assert id in HealthyOn(active, v) ==> id in NewlyDrained(before, mid) * HealthyOn(active, v);
    }
  }

  /** So its outcome is the one it would have had then. */
  lemma SameOutcome(sc: Scene, before: map<Id, Engine>, mid: map<Id, Engine>, v: string, drained: set<Id>)
    requires Snapshot(before, sc.active) && OnlyDrains(before, mid)
    requires forall id :: id in before && before[id].vpn == v ==> mid[id] == before[id]
    requires OnNode(mid, v) == OnNode(before, v)
    requires Outcome(sc, mid, v, drained)
    ensures Outcome(sc, before, v, drained)
  {
    hide StableOn, Capable;
    assert SomeDraining(mid, v) <==> SomeDraining(before, v);
    assert HasLeader(mid, v) <==> HasLeader(before, v);
    var ids := HealthyOn(sc.active, v);
    assert forall id :: id in ids && id in before ==> before[id].vpn == v;
    assert Replaced(sc.loads, mid, drained, ids) ==> Replaced(sc.loads, before, drained, ids);
  }

  lemma VisitKeepsProgress(sc: Scene, before: map<Id, Engine>, mid: map<Id, Engine>, cur: map<Id, Engine>,
                           rest: set<string>, v: string)
    requires Snapshot(before, sc.active) && v in rest && v != "" && sc.limit >= 1
    requires Progress(sc, before, mid, rest) && NodePass(mid, cur, HealthyOn(sc.active, v), sc.limit)
    requires Outcome(sc, mid, v, NewlyDrained(mid, cur))
    ensures Progress(sc, before, cur, rest - {v})
  {
    hide HealthyOn, OnlyDrains, NodeKept, Snapshot, NewlyDrained, NodePass, RestKept, Outcome, HealthyBehind;
    var d, more, here := NewlyDrained(before, mid), NewlyDrained(mid, cur), HealthyOn(sc.active, v);
    SnapshotDistinct(before, sc.active);
    UntouchedSoFar(sc, before, d, rest, v);
    PassParts(mid, cur, here, sc.limit);
    HealthyPart(sc.active, v);
    LeadersStillUntouched(before, mid, cur);
    DrainsCompose(before, mid, cur);
    NodeUntouched(before, mid, sc.active, v);
    SameOutcome(sc, before, mid, v, more);
    ShareHere(d, more, here, sc.limit);
    OthersKept(sc, before, d, more, rest, v);
  }

  lemma UntouchedSoFar(sc: Scene, before: map<Id, Engine>, d: set<Id>, rest: set<string>, v: string)
    requires RestKept(sc, before, d, rest) && v in rest
    ensures d * HealthyOn(sc.active, v) == {}
  {
  }

  lemma PassParts(before: map<Id, Engine>, after: map<Id, Engine>, here: set<Id>, limit: int)
    requires NodePass(before, after, here, limit)
    ensures var drained := NewlyDrained(before, after);
      OnlyDrains(before, after) && drained <= here && (forall id :: id in drained ==> !before[id].forwarded)
      && (|here| > limit ==> |here - drained| >= limit) && (drained != {} ==> |here - drained| >= 1)
  {
  }

  lemma SnapshotDistinct(engines: map<Id, Engine>, active: seq<Engine>)
    requires Snapshot(engines, active)
    ensures DistinctIds(active)
  {
  }

  lemma SnapshotAfterPass(a: map<Id, Engine>, b: map<Id, Engine>, active: seq<Engine>, ids: set<Id>, limit: int)
    requires Snapshot(a, active) && NodePass(a, b, ids, limit)
    ensures Snapshot(b, active)
  {
  }

  lemma HealthyIds(active: seq<Engine>, es: seq<Engine>, v: string)
    requires forall e :: e in es <==> e in active && e.vpn == v && e.health == Healthy
    ensures IdsOf(es) == HealthyOn(active, v)
    ensures forall now :: StableIds(es, now) == StableOn(active, v, now)
  {
  }

  lemma PartOfSnapshot(engines: map<Id, Engine>, active: seq<Engine>, es: seq<Engine>)
    requires Snapshot(engines, active) && DistinctIds(es) && forall e :: e in es ==> e in active
    ensures Snapshot(engines, es)
  {
  }

  /** On a node that has no more than the limit nothing is relieved: at most one
      engine is drained, and that only for want of a leader on a capable node. */
  lemma WithinLimitNotRelieved(sc: Scene, before: map<Id, Engine>, after: map<Id, Engine>, v: string)
    requires DensityOk(sc, before, after) && v != "" && |HealthyOn(sc.active, v)| <= sc.limit
    ensures var drained := NewlyDrained(before, after) * HealthyOn(sc.active, v);
      |drained| <= 1
      && (drained != {} ==>
            v !in sc.leaderPending
            && (exists n :: n in sc.nodes && n.managed && n.name == v && n.capable)
            && forall id :: id in before && before[id].vpn == v && before[id].forwarded && !before[id].draining ==>
                 before[id].health == Unhealthy)
  {
    hide HealthyOn, NewlyDrained, DensityOk;
    OutcomeOf(sc, before, after, v);
    if !HasLeader(before, v) {
      forall id | id in before && before[id].vpn == v && before[id].forwarded && !before[id].draining
        ensures before[id].health == Unhealthy
      {
        assert id in OnNode(before, v);
      }
    }
  }

  /** On a node over the limit with no drain under way, followers older than ten
      seconds are drained, the lightest first, as many as the excess or as there
      are; with one under way, none. */
  lemma OverLimitRelieved(sc: Scene, before: map<Id, Engine>, after: map<Id, Engine>, v: string)
    requires DensityOk(sc, before, after) && v != "" && |HealthyOn(sc.active, v)| > Max(sc.limit, 1)
    ensures var drained := NewlyDrained(before, after) * HealthyOn(sc.active, v);
      var old_ := set e | e in sc.active && e.vpn == v && e.health == Healthy && !e.forwarded
                          && sc.now - e.firstSeen > 10_000_000_000 :: e.containerId;
      if exists id :: id in before && before[id].vpn == v && before[id].draining then drained == {}
      else
        exists ids :: ids <= old_ && |ids| == Min(|HealthyOn(sc.active, v)| - sc.limit, |old_|)
          && drained == ids * before.Keys
          && forall d, f :: d in ids && f in old_ - ids ==>
               Count(sc.loads.streamCounts, d) + Count(sc.loads.enginePending, d)
               <= Count(sc.loads.streamCounts, f) + Count(sc.loads.enginePending, f)
  {
    hide HealthyOn, NewlyDrained, DensityOk, SomeDraining, StableOn, AreLightest;
    OutcomeOf(sc, before, after, v);
    StableOnMeans(sc.active, v, sc.now);
    DrainingMeans(before, v);
    if !SomeDraining(before, v) {
      var pool, excess := StableOn(sc.active, v, sc.now), |HealthyOn(sc.active, v)| - sc.limit;
      var ids :| AreLightest(sc.loads, ids, pool, excess)
        && NewlyDrained(before, after) * HealthyOn(sc.active, v) == ids * before.Keys;
      LightestMeans(sc.loads, ids, pool, excess);
    }
  }

  /** On a capable node without a leader, registered or pending, that is within the
      limit and has two healthy engines, one with the least load is drained, unless
      it is gone or draining already. */
  lemma HeadlessReplaced(sc: Scene, before: map<Id, Engine>, after: map<Id, Engine>, v: string)
    requires DensityOk(sc, before, after) && v != "" && 2 <= |HealthyOn(sc.active, v)| <= sc.limit
    requires (exists n :: n in sc.nodes && n.managed && n.name == v && n.capable) && v !in sc.leaderPending
    requires forall id :: id in before && before[id].vpn == v && before[id].forwarded && !before[id].draining ==>
      before[id].health == Unhealthy
    ensures exists id ::
      id in HealthyOn(sc.active, v)
      && (forall o :: o in HealthyOn(sc.active, v) ==>
            Count(sc.loads.streamCounts, id) + Count(sc.loads.enginePending, id)
            <= Count(sc.loads.streamCounts, o) + Count(sc.loads.enginePending, o))
      && NewlyDrained(before, after) * HealthyOn(sc.active, v) == if id in before && !before[id].draining then {id} else {}
  {
    hide HealthyOn, NewlyDrained, DensityOk;
    OutcomeOf(sc, before, after, v);
    assert !HasLeader(before, v);
    var ids := HealthyOn(sc.active, v);
    var id :| id in ids && (forall o :: o in ids ==> EngineLoad(sc.loads, id) <= EngineLoad(sc.loads, o))
      && NewlyDrained(before, after) * ids == if id in before && !before[id].draining then {id} else {};
    forall o | o in ids
      ensures Count(sc.loads.streamCounts, id) + Count(sc.loads.enginePending, id)
        <= Count(sc.loads.streamCounts, o) + Count(sc.loads.enginePending, o)
    {
      assert EngineLoad(sc.loads, id) <= EngineLoad(sc.loads, o);
    }
  }

  /** The sets the pass is told in: healthy engines of a node by their own fields,
      and the engines that were not draining before and are after. */
  lemma PassSets(active: seq<Engine>, v: string, before: map<Id, Engine>, after: map<Id, Engine>)
    ensures forall id :: id in HealthyOn(active, v) <==>
      exists e :: e in active && e.containerId == id && e.vpn == v && e.health == Healthy
    ensures forall id :: id in NewlyDrained(before, after) <==>
      id in before && id in after && !before[id].draining && after[id].draining
    ensures OnlyDrains(before, after) ==>
      before.Keys == after.Keys && forall id :: id in before ==> after[id].(draining := false) == before[id].(draining := false)
  {
  }

  lemma OutcomeOf(sc: Scene, before: map<Id, Engine>, after: map<Id, Engine>, v: string)
    requires DensityOk(sc, before, after) && v != ""
    ensures Outcome(sc, before, v, NewlyDrained(before, after) * HealthyOn(sc.active, v))
  {
    hide HealthyOn, NewlyDrained, OnlyDrains, Outcome, NodeKept;
  }

  lemma DrainingMeans(engines: map<Id, Engine>, v: string)
    ensures SomeDraining(engines, v) <==> exists id :: id in engines && engines[id].vpn == v && engines[id].draining
  {
    if id :| id in engines && engines[id].vpn == v && engines[id].draining {
      assert id in OnNode(engines, v);
    }
  }

  lemma LightestMeans(l: Loads, ids: set<Id>, pool: set<Id>, wanted: int)
    ensures AreLightest(l, ids, pool, wanted) <==>
      ids <= pool && |ids| == Min(wanted, |pool|)
      && forall d, f :: d in ids && f in pool - ids ==>
           Count(l.streamCounts, d) + Count(l.enginePending, d) <= Count(l.streamCounts, f) + Count(l.enginePending, f)
  {
  }

  lemma StableOnMeans(active: seq<Engine>, v: string, now: int)
    ensures StableOn(active, v, now)
      == set e | e in active && e.vpn == v && e.health == Healthy && !e.forwarded
                 && now - e.firstSeen > 10_000_000_000 :: e.containerId
  {
  }

  /** One density pass. It never newly drains a leader, every node over the limit
      keeps at least the limit of healthy engines that are not newly draining, and
      on every node what is drained is its exact outcome. */
  method RebalanceDensity(st: Store, active: seq<Engine>, nodes: seq<PassNode>, cfg: Config, desired: int,
                          now: int, lastScaleUp: Option<int>, anyNumber: int)
    requires st.Valid() && Snapshot(st.engines, active)
    modifies st`engines
    ensures st.Valid()
    ensures desired <= 0 || Skips(nodes, NodesNeeded(cfg, desired, anyNumber), ReadyCount(nodes), now, lastScaleUp) ==>
      st.engines == old(st.engines)
    ensures desired > 0 && !Skips(nodes, NodesNeeded(cfg, desired, anyNumber), ReadyCount(nodes), now, lastScaleUp) ==>
      var limit := PassLimit(cfg, desired, NodesNeeded(cfg, desired, anyNumber), ReadyCount(nodes));
      limit >= 1
      && DensityOk(Scene(old(st.LoadsView()), st.forwardedPending, active, nodes, limit, now), old(st.engines), st.engines)
    // the same with the limit as a share: required nodes and share are the least that hold what they must
    ensures desired > 0 && cfg.preferredPerVpn > 0 ==>
      forall required: int, share: int ::
        Least(required, cfg.preferredPerVpn, desired) && Least(share, required, desired) ==>
          if ReadyCount(nodes) < required || exists n :: n in nodes && n.managed && n.draining then st.engines == old(st.engines)
          else
            DensityOk(Scene(old(st.LoadsView()), st.forwardedPending, active, nodes,
                            if 0 < cfg.maxPerVpn < share then cfg.maxPerVpn else share, now), old(st.engines), st.engines)
  {
    hide Least, Snapshot, NodePass, Skips, Progress, HealthyOn, IdsOf, PassLimit, NodesNeeded, CeilDiv, OnlyDrains, Outcome, NewlyDrained;
    ghost var before := st.engines;
    if desired <= 0 {
      return;
    }
    var readyCount := 0;
    for i := 0 to |nodes|
      invariant readyCount == ReadyCount(nodes[..i])
    {
      assert nodes[..i + 1][..i] == nodes[..i];
      if nodes[i].managed && nodes[i].healthy && !nodes[i].draining {
        readyCount := readyCount + 1;
      }
    }
    assert nodes[..|nodes|] == nodes;
    var required := NodesNeeded(cfg, desired, anyNumber);
    var limit := PassLimit(cfg, desired, required, readyCount);
    PassLimitPositive(cfg, desired, required, readyCount);
    if cfg.preferredPerVpn > 0 {
      PassLimitExactly(cfg, desired, anyNumber, readyCount);
      SharesUnique(cfg, desired, required);
    }
    WindowsNeverDecide(nodes, required, readyCount, now, lastScaleUp);
    if Skips(nodes, required, readyCount, now, lastScaleUp) {
      return;
    }
    ghost var sc := Scene(st.LoadsView(), st.forwardedPending, active, nodes, limit, now);
    NothingVisited(sc, before);
    var rest := NodesInUse(active);
    while rest != {}
      invariant "" !in rest && rest <= NodesInUse(active)
      invariant st.Valid() && Snapshot(st.engines, active) && Progress(sc, before, st.engines, rest)
      invariant sc == Scene(st.LoadsView(), st.forwardedPending, active, nodes, limit, now)
      decreases rest
    {
      var v :| v in rest;
      ghost var mid := st.engines;
      VisitNode(st, active, nodes, v, limit, now);
      VisitKeepsProgress(sc, before, mid, st.engines, rest, v);
      SnapshotAfterPass(mid, st.engines, active, HealthyOn(active, v), limit);
      rest := rest - {v};
    }
  }

  /** Nodes without healthy engines in the snapshot have nothing to drain. */
  lemma UnusedKept(sc: Scene, engines: map<Id, Engine>, v: string)
    requires v != "" && v !in NodesInUse(sc.active) && sc.limit >= 1
    ensures NodeKept({}, HealthyOn(sc.active, v), sc.limit) && Outcome(sc, engines, v, {} * HealthyOn(sc.active, v))
  {
    assert HealthyOn(sc.active, v) == {};
  }

  lemma NothingVisited(sc: Scene, engines: map<Id, Engine>)
    requires sc.limit >= 1
    ensures Progress(sc, engines, engines, NodesInUse(sc.active))
  {
    hide HealthyOn, NodesInUse, Outcome, NodeKept, HealthyBehind;
    assert NewlyDrained(engines, engines) == {};
    forall v | v != "" && v !in NodesInUse(sc.active)
      ensures NodeKept({}, HealthyOn(sc.active, v), sc.limit) && Outcome(sc, engines, v, {} * HealthyOn(sc.active, v))
    {
      UnusedKept(sc, engines, v);
    }
  }

  /** One node of the pass; a single healthy engine is left alone. */
  method VisitNode(st: Store, active: seq<Engine>, nodes: seq<PassNode>, v: string, limit: int, now: int)
    requires st.Valid() && Snapshot(st.engines, active) && limit >= 1
    modifies st`engines
    ensures st.Valid() && NodePass(old(st.engines), st.engines, HealthyOn(active, v), limit)
    ensures Outcome(Scene(old(st.LoadsView()), st.forwardedPending, active, nodes, limit, now), old(st.engines), v,
                    NewlyDrained(old(st.engines), st.engines))
  {
    hide NodePass, IdsOf, HealthyOn, StableOn, StableIds, SomeDraining, HasLeader, Relieved, Replaced, NewlyDrained, Snapshot;
    SnapshotDistinct(st.engines, active);
    var es := HealthyEngines(active, v);
    HealthyIds(active, es, v);
    PartOfSnapshot(st.engines, active, es);
    NothingDrained(st.engines, es, limit);
    if |es| <= 1 {
      return;
    }
    if |es| > limit {
      RelieveNode(st, es, v, limit, now);
    } else {
      var capable := exists n :: n in nodes && n.managed && n.name == v && n.capable;
      CorrectHeadless(st, es, v, capable, limit);
    }
  }
}
