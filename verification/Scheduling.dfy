/** Engine scheduling as a reservation protocol: any number of schedulers, each
    step one critical section of the store, in any interleaving, while
    containers register, vanish and are found again. */
module Scheduling {
  import opened Common
  import opened Store
  import opened Placement

  /** Where a scheduler is, and what it holds on its node. */
  datatype Task =
    | Placed(vpn: string)                  // density claim made, ports not yet allocated
    | Ported(vpn: string)                  // ports allocated, leader not yet elected
    | Waiting(vpn: string)                 // leader slot won, waiting for the forwarded port
    | Ready(vpn: string, leader: bool)     // spec built: queued, or being executed
    | Clearing(vpn: string)                // density claim returned, leader claim not yet
    | Running(vpn: string, leader: bool)   // container started, not yet registered
    | Leaked(vpn: string, leader: bool)    // abandoned without releasing anything

  datatype State = State(claims: Claims, tasks: map<nat, Task>)

  const INITIAL := State(NO_CLAIMS, map[])

  /** The density limits; desired may differ at every claim. */
  datatype Limits = Limits(preferred: int, hard: int)

  /** Holds one unit of its node's pending count. */
  predicate HoldsPlace(t: Task, v: string) {
    t.vpn == v && !t.Clearing?
  }

  /** Holds its node's leader slot. */
  predicate HoldsLead(t: Task, v: string) {
    t.vpn == v && (t.Waiting? || t.Clearing? || ((t.Ready? || t.Running? || t.Leaked?) && t.leader))
  }

  function Holders(tasks: map<nat, Task>, v: string): set<nat> {
    set t | t in tasks && HoldsPlace(tasks[t], v)
  }

  function LeadHolders(tasks: map<nat, Task>, v: string): set<nat> {
    set t | t in tasks && HoldsLead(tasks[t], v)
  }

  // ---- steps ----

  /** A step of one scheduler. */
  datatype Act =
    | PortsAllocated
    | PortsExhausted
    | Unsupported
    | Elect
    | PortFound
    | PortMissing
    | Release
    | ClearLead
    | Start
    | Leak

  datatype Event =
    | Place(t: nat, vpn: string, nodes: seq<Node>, desired: int)
    | Step(t: nat, act: Act)
    | Register(t: nat, e: Engine)
    | Reregister(e: Engine)
    | Remove(id: Id)
    | Adopt(e: Engine)                     // a container that no scheduler here has started is found

  predicate CanAct(x: Task, act: Act) {
    match act
    case PortsAllocated => x.Placed?
    case PortsExhausted => x.Placed?
    case Unsupported => x.Ported?
    case Elect => x.Ported?
    case PortFound => x.Waiting?
    case PortMissing => x.Waiting?
    case Release => x.Ready?
    case ClearLead => x.Clearing?
    case Start => x.Ready?
    case Leak => x.Ready? || x.Running?
  }

  /** What becomes of the scheduler; None when it is done. */
  function Moved(c: Claims, x: Task, act: Act): Option<Task>
    requires CanAct(x, act)
  {
    match act
    case PortsAllocated => Some(Ported(x.vpn))
    case PortsExhausted => None
    case Unsupported => Some(Ready(x.vpn, false))
    case Elect => Some(if CanLead(c, x.vpn) then Waiting(x.vpn) else Ready(x.vpn, false))
    case PortFound => Some(Ready(x.vpn, true))
    case PortMissing => Some(Ready(x.vpn, false))
    case Release => if x.leader then Some(Clearing(x.vpn)) else None
    case ClearLead => None
    case Start => Some(Running(x.vpn, x.leader))
    case Leak => Some(Leaked(x.vpn, x.leader))
  }

  /** What the step does to the shared claims. */
  function Settled(c: Claims, x: Task, act: Act): Claims
    requires CanAct(x, act)
  {
    match act
    case PortsExhausted => Unclaimed(c, x.vpn)
    case Release => Unclaimed(c, x.vpn)
    case Elect => if CanLead(c, x.vpn) then LeaderPending(c, x.vpn, true) else c
    case PortMissing => LeaderPending(c, x.vpn, false)
    case ClearLead => LeaderPending(c, x.vpn, false)
    case _ => c
  }

  function WithTask(tasks: map<nat, Task>, t: nat, x: Option<Task>): map<nat, Task> {
    if x.Some? then tasks[t := x.value] else tasks - {t}
  }

  ghost predicate Enabled(lim: Limits, s: State, ev: Event) {
    match ev
    case Place(t, vpn, nodes, desired) =>
      t !in s.tasks && vpn != "" && PlacedWell(s.claims, nodes, lim.preferred, lim.hard, desired, vpn)
    case Step(t, act) => t in s.tasks && CanAct(s.tasks[t], act)
    case Register(t, e) =>
      t in s.tasks && s.tasks[t].Running? && e.containerId !in s.claims.engines
      && e.vpn == s.tasks[t].vpn && e.forwarded == s.tasks[t].leader
    case Reregister(e) =>
      // labels never change, so a known container comes back with the same node and role
      e.containerId in s.claims.engines
      && e.vpn == s.claims.engines[e.containerId].vpn && e.forwarded == s.claims.engines[e.containerId].forwarded
    case Remove(id) => true
    case Adopt(e) => e.containerId !in s.claims.engines
  }

  ghost function Next(lim: Limits, s: State, ev: Event): State
    requires Enabled(lim, s, ev)
  {
    match ev
    case Place(t, vpn, nodes, desired) => State(Claimed(s.claims, vpn), s.tasks[t := Placed(vpn)])
    case Step(t, act) =>
      State(Settled(s.claims, s.tasks[t], act), WithTask(s.tasks, t, Moved(s.claims, s.tasks[t], act)))
    case Register(t, e) => State(Registered(s.claims, e), s.tasks - {t})
    case Reregister(e) => s.(claims := Registered(s.claims, e))
    case Remove(id) => s.(claims := Removed(s.claims, id))
    case Adopt(e) => s.(claims := Registered(s.claims, e))
  }

  /** The adopted container takes nobody's claim, finds room on its node, and is no
      second leader. */
  predicate Fits(lim: Limits, c: Claims, e: Engine) {
    e.vpn == ""
    || (Count(c.vpnPending, e.vpn) == 0
        && (lim.preferred > 0 ==> Load(c, e.vpn) < Max(lim.preferred, lim.hard))
        && (e.forwarded ==> CanLead(c, e.vpn)))
  }

  ghost predicate Follows(lim: Limits, orderly: bool, s: State, s': State) {
    exists ev :: Enabled(lim, s, ev) && (orderly && ev.Adopt? ==> Fits(lim, s.claims, ev.e)) && s' == Next(lim, s, ev)
  }

  /** A run; an orderly one adopts only containers that fit. */
  ghost predicate Behavior(lim: Limits, orderly: bool, trace: seq<State>) {
    |trace| > 0 && trace[0] == INITIAL
    && forall i :: 0 <= i < |trace| - 1 ==> Follows(lim, orderly, trace[i], trace[i + 1])
  }

  // ---- the invariant, node by node ----

  /** What is counted on one node: its pending counter and the schedulers behind
      it, its leader flag and the schedulers behind that, its engines and leaders. */
  datatype Tally = Tally(pending: nat, places: nat, flagged: bool, leads: nat, engines: nat, leaders: nat)

  function TallyOf(s: State, v: string): Tally {
    Tally(Count(s.claims.vpnPending, v), |Holders(s.tasks, v)|, v in s.claims.forwardedPending,
          |LeadHolders(s.tasks, v)|, |OnNode(s.claims.engines, v)|, |Leaders(s.claims.engines, v)|)
  }

  /** The pending counter is the number of claims; the leader flag stands for
      exactly one claim and then no leader is registered, and without it there is
      no claim and at most one leader; the node is within its bound. */
  predicate TallyOk(lim: Limits, n: Tally) {
    n.pending == n.places
    && (if n.flagged then n.leads == 1 && n.leaders == 0 else n.leads == 0 && n.leaders <= 1)
    && (lim.preferred > 0 ==> n.engines + n.pending <= Max(lim.preferred, lim.hard))
  }

  ghost predicate NodeOk(lim: Limits, s: State, v: string) {
    v != "" ==> TallyOk(lim, TallyOf(s, v))
  }

  // ---- how one task or one engine changes the counts ----

  lemma TaskSets(tasks: map<nat, Task>, t: nat, x: Option<Task>, v: string)
    ensures Holders(WithTask(tasks, t, x), v)
         == (Holders(tasks, v) - {t}) + if x.Some? && HoldsPlace(x.value, v) then {t} else {}
    ensures LeadHolders(WithTask(tasks, t, x), v)
         == (LeadHolders(tasks, v) - {t}) + if x.Some? && HoldsLead(x.value, v) then {t} else {}
    ensures t in Holders(tasks, v) <==> t in tasks && HoldsPlace(tasks[t], v)
    ensures t in LeadHolders(tasks, v) <==> t in tasks && HoldsLead(tasks[t], v)
  {
  }

  lemma TaskChange(tasks: map<nat, Task>, t: nat, x: Option<Task>, v: string)
    ensures |Holders(WithTask(tasks, t, x), v)|
         == |Holders(tasks, v)| - One(t in tasks && HoldsPlace(tasks[t], v)) + One(x.Some? && HoldsPlace(x.value, v))
    ensures |LeadHolders(WithTask(tasks, t, x), v)|
         == |LeadHolders(tasks, v)| - One(t in tasks && HoldsLead(tasks[t], v)) + One(x.Some? && HoldsLead(x.value, v))
  {
    hide Holders, LeadHolders, WithTask, HoldsPlace, HoldsLead;
    TaskSets(tasks, t, x, v);
    CardChange(Holders(tasks, v), t, x.Some? && HoldsPlace(x.value, v));
    CardChange(LeadHolders(tasks, v), t, x.Some? && HoldsLead(x.value, v));
  }

  lemma EngineSets(engines: map<Id, Engine>, e: Engine, v: string)
    ensures OnNode(engines[e.containerId := e], v)
         == (OnNode(engines, v) - {e.containerId}) + if e.vpn == v then {e.containerId} else {}
    ensures Leaders(engines[e.containerId := e], v)
         == (Leaders(engines, v) - {e.containerId}) + if e.vpn == v && e.forwarded then {e.containerId} else {}
    ensures e.containerId in OnNode(engines, v) <==> e.containerId in engines && engines[e.containerId].vpn == v
    ensures e.containerId in Leaders(engines, v)
      <==> e.containerId in engines && engines[e.containerId].vpn == v && engines[e.containerId].forwarded
  {
  }

  lemma EngineChange(engines: map<Id, Engine>, e: Engine, v: string)
    ensures var was := e.containerId in engines && engines[e.containerId].vpn == v;
      var led := was && engines[e.containerId].forwarded;
      |OnNode(engines[e.containerId := e], v)| == |OnNode(engines, v)| - One(was) + One(e.vpn == v)
      && |Leaders(engines[e.containerId := e], v)| == |Leaders(engines, v)| - One(led) + One(e.vpn == v && e.forwarded)
  {
    hide OnNode, Leaders;
    EngineSets(engines, e, v);
    CardChange(OnNode(engines, v), e.containerId, e.vpn == v);
    CardChange(Leaders(engines, v), e.containerId, e.vpn == v && e.forwarded);
  }

  lemma EngineRemoved(engines: map<Id, Engine>, id: Id, v: string)
    ensures |OnNode(engines - {id}, v)| <= |OnNode(engines, v)|
    ensures |Leaders(engines - {id}, v)| <= |Leaders(engines, v)|
  {
    hide OnNode, Leaders;
    RemovedSets(engines, id, v);
    CardChange(OnNode(engines, v), id, false);
    CardChange(Leaders(engines, v), id, false);
  }

  lemma RemovedSets(engines: map<Id, Engine>, id: Id, v: string)
    ensures OnNode(engines - {id}, v) == (OnNode(engines, v) - {id}) + {}
    ensures Leaders(engines - {id}, v) == (Leaders(engines, v) - {id}) + {}
  {
  }

  lemma NoLeaders(engines: map<Id, Engine>, v: string)
    ensures Leaders(engines, v) == {} <==> |Leaders(engines, v)| == 0
  {
  }

  // ---- each step, seen from one node ----

  lemma PlaceStep(lim: Limits, s: State, ev: Event, v: string)
    requires ev.Place? && Enabled(lim, s, ev) && NodeOk(lim, s, v)
    ensures NodeOk(lim, Next(lim, s, ev), v)
  {
    hide PlacedWell, Holders, LeadHolders, OnNode, Leaders, EffectiveLimit;
    TaskChange(s.tasks, ev.t, Some(Placed(ev.vpn)), v);
    assert Next(lim, s, ev).tasks == WithTask(s.tasks, ev.t, Some(Placed(ev.vpn)));
    if lim.preferred > 0 {
      PlacedBelowBound(s.claims, ev.nodes, lim.preferred, lim.hard, ev.desired, ev.vpn);
    }
  }

  /** A step of one scheduler: the counters follow what it holds, on its own node
      and on every other. */
  lemma ActStep(lim: Limits, s: State, t: nat, act: Act, v: string)
    requires t in s.tasks && CanAct(s.tasks[t], act) && NodeOk(lim, s, v)
    ensures NodeOk(lim,
      State(Settled(s.claims, s.tasks[t], act), WithTask(s.tasks, t, Moved(s.claims, s.tasks[t], act))), v)
  {
    hide Holders, LeadHolders, OnNode, Leaders, WithTask;
    TaskChange(s.tasks, t, Moved(s.claims, s.tasks[t], act), v);
    NoLeaders(s.claims.engines, v);
  }

  /** Registration turns the scheduler's claims into an engine: the load of its
      node does not change. */
  lemma RegisterStep(lim: Limits, s: State, ev: Event, v: string)
    requires ev.Register? && Enabled(lim, s, ev) && NodeOk(lim, s, v)
    ensures NodeOk(lim, Next(lim, s, ev), v)
    ensures v != "" ==> Load(Next(lim, s, ev).claims, v) == Load(s.claims, v)
  {
    hide PlacedWell, Holders, LeadHolders, OnNode, Leaders, EffectiveLimit;
    TaskChange(s.tasks, ev.t, None, v);
    EngineChange(s.claims.engines, ev.e, v);
    assert Next(lim, s, ev).tasks == WithTask(s.tasks, ev.t, None);
  }

  lemma ReregisterStep(lim: Limits, s: State, ev: Event, v: string)
    requires ev.Reregister? && Enabled(lim, s, ev) && NodeOk(lim, s, v)
    ensures NodeOk(lim, Next(lim, s, ev), v)
  {
    hide PlacedWell, Holders, LeadHolders, OnNode, EffectiveLimit;
    EngineChange(s.claims.engines, ev.e, v);
    if v == ev.e.vpn && ev.e.forwarded {
      assert ev.e.containerId in Leaders(s.claims.engines, v);
    }
  }

  lemma RemoveStep(lim: Limits, s: State, ev: Event, v: string)
    requires ev.Remove? && NodeOk(lim, s, v)
    ensures NodeOk(lim, Next(lim, s, ev), v)
  {
    hide PlacedWell, Holders, LeadHolders, OnNode, Leaders, EffectiveLimit;
    EngineRemoved(s.claims.engines, ev.id, v);
  }

  /** An adoption keeps the books of the container's node right exactly when it
      fits, and those of every other node always. */
  lemma AdoptKeepsExactly(lim: Limits, s: State, ev: Event, v: string)
    requires ev.Adopt? && Enabled(lim, s, ev) && NodeOk(lim, s, v)
    ensures v == ev.e.vpn ==> (NodeOk(lim, Next(lim, s, ev), v) <==> Fits(lim, s.claims, ev.e))
    ensures v != ev.e.vpn ==> NodeOk(lim, Next(lim, s, ev), v)
  {
    hide PlacedWell, Holders, LeadHolders, OnNode, Leaders, EffectiveLimit;
    EngineChange(s.claims.engines, ev.e, v);
    NoLeaders(s.claims.engines, v);
  }

  lemma StepKeepsNode(lim: Limits, s: State, ev: Event, v: string)
    requires Enabled(lim, s, ev) && (ev.Adopt? ==> Fits(lim, s.claims, ev.e)) && NodeOk(lim, s, v)
    ensures NodeOk(lim, Next(lim, s, ev), v)
  {
    hide NodeOk, PlacedWell, Settled, Moved, WithTask, Fits;
    match ev
    case Place(_, _, _, _) => PlaceStep(lim, s, ev, v);
    case Step(t, act) =>
      ActStep(lim, s, t, act, v);
    case Register(_, _) => RegisterStep(lim, s, ev, v);
    case Reregister(_) => ReregisterStep(lim, s, ev, v);
    case Remove(_) => RemoveStep(lim, s, ev, v);
    case Adopt(_) => AdoptKeepsExactly(lim, s, ev, v);
  }

  lemma {:induction false} NodeAlwaysOk(lim: Limits, trace: seq<State>, i: nat, v: string)
    requires Behavior(lim, true, trace) && i < |trace|
    ensures NodeOk(lim, trace[i], v)
  {
    hide NodeOk, Enabled, Next, Fits;
    if i == 0 {
      InitialOk(lim, v);
    } else {
      NodeAlwaysOk(lim, trace, i - 1, v);
      assert Follows(lim, true, trace[i - 1], trace[i - 1 + 1]);
      var ev :| Enabled(lim, trace[i - 1], ev) && (ev.Adopt? ==> Fits(lim, trace[i - 1].claims, ev.e))
        && trace[i] == Next(lim, trace[i - 1], ev);
      StepKeepsNode(lim, trace[i - 1], ev, v);
    }
  }

  lemma InitialOk(lim: Limits, v: string)
    ensures NodeOk(lim, INITIAL, v)
  {
    assert Holders(map[], v) == {} && LeadHolders(map[], v) == {};
    assert Leaders(map[], v) == {} && OnNode(map[], v) == {};
  }

  // ---- what holds even when adoptions do not fit ----

  /** Every claim counted on the node is held by some scheduler. */
  ghost predicate ClaimsHeld(s: State, v: string) {
    v != "" ==>
      Count(s.claims.vpnPending, v) <= |Holders(s.tasks, v)|
      && (v in s.claims.forwardedPending ==> |LeadHolders(s.tasks, v)| >= 1)
  }

  lemma StepKeepsClaimsHeld(lim: Limits, s: State, ev: Event, v: string)
    requires Enabled(lim, s, ev) && ClaimsHeld(s, v)
    ensures ClaimsHeld(Next(lim, s, ev), v)
  {
    hide PlacedWell, Holders, LeadHolders, Leaders;
    match ev
    case Place(t, vpn, _, _) =>
      TaskChange(s.tasks, t, Some(Placed(vpn)), v);
      assert Next(lim, s, ev).tasks == WithTask(s.tasks, t, Some(Placed(vpn)));
    case Step(t, act) => ActKeepsClaimsHeld(lim, s, t, act, v);
    case Register(t, _) =>
      TaskChange(s.tasks, t, None, v);
      assert Next(lim, s, ev).tasks == WithTask(s.tasks, t, None);
    case Reregister(_) =>
    case Remove(_) =>
    case Adopt(_) =>
  }

  lemma ActKeepsClaimsHeld(lim: Limits, s: State, t: nat, act: Act, v: string)
    requires t in s.tasks && CanAct(s.tasks[t], act) && ClaimsHeld(s, v)
    ensures ClaimsHeld(
      State(Settled(s.claims, s.tasks[t], act), WithTask(s.tasks, t, Moved(s.claims, s.tasks[t], act))), v)
  {
    hide Holders, LeadHolders, Leaders, WithTask;
    TaskChange(s.tasks, t, Moved(s.claims, s.tasks[t], act), v);
  }

  /** Whatever is adopted, no claim is ever counted that nobody holds. */
  lemma {:induction false} ClaimsAlwaysHeld(lim: Limits, trace: seq<State>, i: nat, v: string)
    requires Behavior(lim, false, trace) && i < |trace|
    ensures ClaimsHeld(trace[i], v)
  {
    hide ClaimsHeld, Enabled, Next, Fits;
    if i == 0 {
      InitialClaimsHeld(v);
    } else {
      ClaimsAlwaysHeld(lim, trace, i - 1, v);
      assert Follows(lim, false, trace[i - 1], trace[i - 1 + 1]);
      var ev :| Enabled(lim, trace[i - 1], ev) && trace[i] == Next(lim, trace[i - 1], ev);
      StepKeepsClaimsHeld(lim, trace[i - 1], ev, v);
    }
  }

  lemma InitialClaimsHeld(v: string)
    ensures ClaimsHeld(INITIAL, v)
  {
  }

  // ---- the theorems ----

  /** Leader exclusion: in every orderly interleaving, a node never has more than one
      registered leader and outstanding leader claim together. */
  lemma LeaderExclusion(lim: Limits, trace: seq<State>, i: nat, v: string)
    requires Behavior(lim, true, trace) && i < |trace| && v != ""
    ensures |Leaders(trace[i].claims.engines, v)| + |LeadHolders(trace[i].tasks, v)| <= 1
    ensures v in trace[i].claims.forwardedPending <==> |LeadHolders(trace[i].tasks, v)| == 1
  {
    NodeAlwaysOk(lim, trace, i, v);
  }

  /** Density bound: in every orderly interleaving, engines and pending claims on a node
      stay within the larger of the two limits, if the preference is positive. */
  lemma DensityBound(lim: Limits, trace: seq<State>, i: nat, v: string)
    requires Behavior(lim, true, trace) && i < |trace| && v != "" && lim.preferred > 0
    ensures Load(trace[i].claims, v) <= Max(lim.preferred, lim.hard)
    ensures |OnNode(trace[i].claims.engines, v)| <= Max(lim.preferred, lim.hard)
  {
    NodeAlwaysOk(lim, trace, i, v);
  }

  /** In every orderly run claims are neither lost nor doubled: the pending count of a node is the
      number of schedulers, abandoned ones included, that hold a place on it. */
  lemma PendingIsOutstanding(lim: Limits, trace: seq<State>, i: nat, v: string)
    requires Behavior(lim, true, trace) && i < |trace| && v != ""
    ensures Count(trace[i].claims.vpnPending, v) == |Holders(trace[i].tasks, v)|
  {
    NodeAlwaysOk(lim, trace, i, v);
  }
}
