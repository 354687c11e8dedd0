/** Which VPN node a new engine goes to: the balanced limit, the two claim
    attempts, and what greedy placement guarantees. */
module Placement {
  import opened Common
  import opened Store

  /** A tracked VPN node; ready is the verdict of the readiness check. */
  datatype Node = Node(name: string, managed: bool, ready: bool, draining: bool, healthy: bool)

  datatype Placement = OffVpn | On(node: string) | Blocked

  function CeilDiv(a: int, b: int): int
    requires b > 0
  {
    (a + b - 1) / b
  }

  function RequiredNodes(preferred: int, desired: int): int
    requires preferred > 0
  {
    Max(CeilDiv(desired, preferred), 1)
  }

  /** The per-node limit that spreads desired engines over the required nodes. */
  function EffectiveLimit(preferred: int, desired: int): int {
    if preferred > 0 && desired > 0 then Min(CeilDiv(desired, RequiredNodes(preferred, desired)), preferred)
    else preferred
  }

  function ReadyNames(nodes: seq<Node>): seq<string> {
    if nodes == [] then []
    else
      var n := nodes[|nodes| - 1];
      ReadyNames(nodes[..|nodes| - 1]) + if n.managed && n.ready && !n.draining then [n.name] else []
  }

  /** Exactly these names are offered; a draining node never is. */
  lemma {:induction false} ReadyNamesMeans(nodes: seq<Node>)
    ensures forall v :: v in ReadyNames(nodes) <==> exists n :: n in nodes && n.name == v && n.managed && n.ready && !n.draining
  {
    if nodes != [] {
      var front, last := nodes[..|nodes| - 1], nodes[|nodes| - 1];
      ReadyNamesMeans(front);
      assert nodes == front + [last];
    }
  }

  predicate SomePending(nodes: seq<Node>) {
    exists n :: n in nodes && n.managed && !n.healthy && !n.draining
  }

  /** The claim was made below the balanced limit, or, with every ready node at it
      and no node still coming up, below the hard limit. */
  ghost predicate PlacedWell(c: Claims, nodes: seq<Node>, preferred: int, hard: int, desired: int, v: string) {
    var names, limit := ReadyNames(nodes), EffectiveLimit(preferred, desired);
    || IsChoice(c, names, limit, v)
    || ((forall w :: w in names ==> !Eligible(c, limit, w)) && !SomePending(nodes)
        && hard > limit && IsChoice(c, names, hard, v))
  }

  /** No node can take an engine now: none is tracked yet, or every ready one is at
      the balanced limit and more are coming up, or the hard limit gives no room. */
  ghost predicate MustWait(c: Claims, nodes: seq<Node>, vpnEnabled: bool, preferred: int, hard: int, desired: int) {
    var names, limit := ReadyNames(nodes), EffectiveLimit(preferred, desired);
    if nodes == [] then vpnEnabled
    else
      (forall w :: w in names ==> !Eligible(c, limit, w))
      && (SomePending(nodes) || hard <= limit || forall w :: w in names ==> !Eligible(c, hard, w))
  }

  /** A placement, in fields: on a node that is managed, ready and not draining, with
      room below the limit it was made under and no such node lighter; above the
      balanced limit only while no other node is coming up. */
  lemma PlacedWellMeans(c: Claims, nodes: seq<Node>, preferred: int, hard: int, desired: int, v: string)
    requires PlacedWell(c, nodes, preferred, hard, desired, v)
    ensures exists n :: n in nodes && n.name == v && n.managed && n.ready && !n.draining
    ensures var load, soft := |OnNode(c.engines, v)| + Count(c.vpnPending, v), EffectiveLimit(preferred, desired);
      soft <= 0 || load < Max(soft, hard)
    ensures var load, soft := |OnNode(c.engines, v)| + Count(c.vpnPending, v), EffectiveLimit(preferred, desired);
      soft > 0 && load >= soft ==> forall n :: n in nodes && n.managed && !n.draining ==> n.healthy
    ensures forall n :: n in nodes && n.managed && n.ready && !n.draining ==>
      |OnNode(c.engines, v)| + Count(c.vpnPending, v) <= |OnNode(c.engines, n.name)| + Count(c.vpnPending, n.name)
  {
    hide EffectiveLimit, ReadyNames;
    ReadyNamesMeans(nodes);
    var names, limit := ReadyNames(nodes), EffectiveLimit(preferred, desired);
    forall n | n in nodes && n.managed && n.ready && !n.draining ensures n.name in names {
    }
    if IsChoice(c, names, limit, v) {
      ChoiceIsLeast(c, names, limit, v);
    } else {
      ChoiceIsLeast(c, names, hard, v);
    }
  }

  /** Waiting, in fields: every ready node is full at the balanced limit, and another
      is coming up or every ready one is full at the hard limit too. */
  lemma MustWaitMeans(c: Claims, nodes: seq<Node>, vpnEnabled: bool, preferred: int, hard: int, desired: int)
    requires nodes != []
    ensures var soft := EffectiveLimit(preferred, desired);
      MustWait(c, nodes, vpnEnabled, preferred, hard, desired) <==>
        forall n :: n in nodes && n.managed && n.ready && !n.draining ==>
          var load := |OnNode(c.engines, n.name)| + Count(c.vpnPending, n.name);
          soft > 0 && load >= soft
          && ((exists m :: m in nodes && m.managed && !m.draining && !m.healthy)
              || hard <= soft || (hard > 0 && load >= hard))
  {
    hide EffectiveLimit, ReadyNames, OnNode;
    ReadyNamesMeans(nodes);
    var names, soft := ReadyNames(nodes), EffectiveLimit(preferred, desired);
    forall n | n in nodes && n.managed && n.ready && !n.draining ensures n.name in names {
    }
    AllFull(c, nodes, soft);
    AllFull(c, nodes, hard);
  }

  lemma AllFull(c: Claims, nodes: seq<Node>, limit: int)
    ensures (forall w :: w in ReadyNames(nodes) ==> !Eligible(c, limit, w)) <==>
      forall n :: n in nodes && n.managed && n.ready && !n.draining ==>
        limit > 0 && |OnNode(c.engines, n.name)| + Count(c.vpnPending, n.name) >= limit
  {
    hide ReadyNames, OnNode;
    ReadyNamesMeans(nodes);
    forall n | n in nodes && n.managed && n.ready && !n.draining
      ensures n.name in ReadyNames(nodes)
      ensures !Eligible(c, limit, n.name) <==> limit > 0 && |OnNode(c.engines, n.name)| + Count(c.vpnPending, n.name) >= limit
    {
    }
  }

  method SelectVpnContainer(st: Store, nodes: seq<Node>, vpnEnabled: bool, preferred: int, hard: int, desired: int)
    returns (p: Placement)
    requires forall n :: n in nodes && n.ready ==> n.name != ""
    modifies st`vpnPending
    ensures p == OffVpn <==> nodes == [] && !vpnEnabled
    ensures p.On? ==> PlacedWell(old(st.ClaimsView()), nodes, preferred, hard, desired, p.node)
    ensures p.On? ==> p.node != "" && st.ClaimsView() == Claimed(old(st.ClaimsView()), p.node)
    ensures !p.On? ==> st.ClaimsView() == old(st.ClaimsView())
    ensures p == Blocked <==> MustWait(old(st.ClaimsView()), nodes, vpnEnabled, preferred, hard, desired)
  {
    if |nodes| == 0 {
      return if vpnEnabled then Blocked else OffVpn;
    }
    var readyNames: seq<string> := [];
    for i := 0 to |nodes|
      invariant readyNames == ReadyNames(nodes[..i]) && "" !in readyNames
    {
      assert nodes[..i + 1][..i] == nodes[..i];
      var n := nodes[i];
      if n.managed && n.ready && !n.draining {
        readyNames := readyNames + [n.name];
      }
    }
    assert nodes[..|nodes|] == nodes;
    if |readyNames| == 0 {
      return Blocked;
    }
    var effectiveLimit := preferred;
    if preferred > 0 && desired > 0 {
      var requiredNodes := CeilDiv(desired, preferred);
      if requiredNodes < 1 {
        requiredNodes := 1;
      }
      effectiveLimit := CeilDiv(desired, requiredNodes);
      if effectiveLimit > preferred {
        effectiveLimit := preferred;
      }
    }
    assert effectiveLimit == EffectiveLimit(preferred, desired);
    var chosen, load := st.SelectAndClaimVpn(readyNames, effectiveLimit);
    if chosen == "" {
      if SomePending(nodes) {
        return Blocked;
      }
      if hard > effectiveLimit {
        chosen, load := st.SelectAndClaimVpn(readyNames, hard);
      }
    }
    return if chosen == "" then Blocked else On(chosen);
  }

  // ---- the limit ----

  lemma CeilDivBounds(a: int, b: int)
    requires b > 0
    ensures CeilDiv(a, b) * b >= a
    ensures (CeilDiv(a, b) - 1) * b < a
  {
    var q, r := (a + b - 1) / b, (a + b - 1) % b;
    assert a + b - 1 == q * b + r && 0 <= r < b;
    assert (q - 1) * b == q * b - b;
  }

  lemma CeilDivPositive(a: int, b: int)
    requires a > 0 && b > 0
    ensures CeilDiv(a, b) >= 1
  {
    CeilDivBounds(a, b);
    if CeilDiv(a, b) <= 0 {
      MulNonPositive(CeilDiv(a, b), b);
    }
  }

  lemma MulNonPositive(x: int, b: int)
    requires x <= 0 && b > 0
    ensures x * b <= 0
  {
  }

  lemma CeilDivAtMost(a: int, b: int, m: int)
    requires b > 0 && a <= m * b
    ensures CeilDiv(a, b) <= m
  {
    CeilDivBounds(a, b);
    if CeilDiv(a, b) > m {
      MulMore(m, CeilDiv(a, b) - 1, b);
    }
  }

  lemma MulMore(x: int, y: int, b: int)
    requires x <= y && b > 0
    ensures x * b <= y * b
  {
  }

  /** The number of nodes needed and the balanced limit are each the least that do:
      required nodes at the preference hold the desired engines and one node less
      does not; at the limit they hold them too, and at one less they do not. */
  lemma LimitIsLeast(preferred: int, desired: int)
    requires preferred > 0
    ensures desired > 0 ==>
      var nodes, limit := RequiredNodes(preferred, desired), EffectiveLimit(preferred, desired);
      (nodes - 1) * preferred < desired <= nodes * preferred && (limit - 1) * nodes < desired <= limit * nodes
    ensures desired <= 0 ==> EffectiveLimit(preferred, desired) == preferred
  {
    hide CeilDiv;
    if desired > 0 {
      CeilDivPositive(desired, preferred);
      CeilDivBounds(desired, preferred);
      var n := RequiredNodes(preferred, desired);
      CeilDivBounds(desired, n);
      assert n * preferred == preferred * n;
      CeilDivAtMost(desired, n, preferred);
    }
  }

  /** With a positive preference the balanced limit is between 1 and it, and
      filling the required nodes to the limit covers every desired engine. */
  lemma LimitCoversDesired(preferred: int, desired: int)
    requires preferred > 0
    ensures 1 <= EffectiveLimit(preferred, desired) <= preferred
    ensures desired > 0 ==> EffectiveLimit(preferred, desired) * RequiredNodes(preferred, desired) >= desired
  {
    if desired > 0 {
      var n := RequiredNodes(preferred, desired);
      CeilDivPositive(desired, preferred);
      CeilDivPositive(desired, n);
      CeilDivBounds(desired, preferred);
      CeilDivBounds(desired, n);
      assert n * preferred == preferred * n;
      CeilDivAtMost(desired, n, preferred);
    }
  }

  /** A preference of zero or less removes the bound entirely: the first claim then
      accepts any load, and the hard limit is never consulted. */
  lemma NoPreferenceNoLimit(c: Claims, preferred: int, desired: int, v: string)
    requires preferred <= 0
    ensures Eligible(c, EffectiveLimit(preferred, desired), v)
  {
  }

  // ---- the density bound of one claim ----

  /** A placed engine lands below the larger of the two limits; this holds for
      every load exactly when the preference is positive. */
  lemma PlacedBelowBound(c: Claims, nodes: seq<Node>, preferred: int, hard: int, desired: int, v: string)
    requires preferred > 0 && PlacedWell(c, nodes, preferred, hard, desired, v)
    ensures Load(c, v) < Max(preferred, hard)
    ensures Load(Claimed(c, v), v) == Load(c, v) + 1
  {
    LimitCoversDesired(preferred, desired);
  }

  // ---- greedy placement stays balanced ----

  ghost predicate Balanced(c: Claims, candidates: seq<string>) {
    forall v, w :: v in candidates && w in candidates ==> Load(c, v) <= Load(c, w) + 1
  }

  /** A choice is a least loaded candidate of all, not only of the eligible ones. */
  lemma ChoiceIsLeast(c: Claims, candidates: seq<string>, limit: int, best: string)
    requires IsChoice(c, candidates, limit, best)
    ensures best in candidates && forall w :: w in candidates ==> Load(c, best) <= Load(c, w)
  {
    forall w | w in candidates ensures Load(c, best) <= Load(c, w) {
      if Eligible(c, limit, w) {
        var j :| 0 <= j < |candidates| && candidates[j] == w;
      }
    }
  }

  /** Of the least loaded it is the first. */
  lemma ChoiceIsFirst(c: Claims, candidates: seq<string>, limit: int, best: string)
    requires IsChoice(c, candidates, limit, best)
    ensures exists k ::
      0 <= k < |candidates| && candidates[k] == best
      && forall j :: 0 <= j < k ==> Load(c, candidates[j]) > Load(c, best)
  {
    hide Load;
    var k :| 0 <= k < |candidates| && candidates[k] == best && Eligible(c, limit, best)
      && forall j :: 0 <= j < |candidates| && Eligible(c, limit, candidates[j]) ==>
           (if j < k then Load(c, candidates[j]) > Load(c, best) else Load(c, candidates[j]) >= Load(c, best));
  }

  lemma ClaimKeepsBalance(c: Claims, candidates: seq<string>, limit: int, best: string)
    requires Balanced(c, candidates) && IsChoice(c, candidates, limit, best)
    ensures Balanced(Claimed(c, best), candidates)
  {
    ChoiceIsLeast(c, candidates, limit, best);
    var c' := Claimed(c, best);
    forall v, w | v in candidates && w in candidates ensures Load(c', v) <= Load(c', w) + 1 {
      assert Load(c', w) >= Load(c, w) && Load(c', v) <= Load(c, v) + if v == best then 1 else 0;
    }
  }

  /** A run of claims over one candidate set, whatever the limits were. */
  ghost predicate ClaimRun(trace: seq<Claims>, candidates: seq<string>) {
    |trace| > 0
    && forall i :: 0 <= i < |trace| - 1 ==>
         exists limit, best :: IsChoice(trace[i], candidates, limit, best) && trace[i + 1] == Claimed(trace[i], best)
  }

  /** Repeated claims over a set that starts balanced keep it within one. */
  lemma {:induction false} ClaimsStayBalanced(trace: seq<Claims>, candidates: seq<string>, i: nat)
    requires ClaimRun(trace, candidates) && Balanced(trace[0], candidates) && i < |trace|
    ensures Balanced(trace[i], candidates)
  {
    if i > 0 {
      ClaimsStayBalanced(trace, candidates, i - 1);
      var limit, best :| IsChoice(trace[i - 1], candidates, limit, best)
        && trace[i - 1 + 1] == Claimed(trace[i - 1], best);
      ClaimKeepsBalance(trace[i - 1], candidates, limit, best);
    }
  }

  // ---- enough nodes are enough ----

  function SumLoads(c: Claims, names: seq<string>): nat {
    if names == [] then 0 else SumLoads(c, names[..|names| - 1]) + Load(c, names[|names| - 1])
  }

  lemma {:induction false} FullNodesAddUp(c: Claims, names: seq<string>, limit: int)
    requires limit > 0 && forall v :: v in names ==> !Eligible(c, limit, v)
    ensures SumLoads(c, names) >= |names| * limit
  {
    if names != [] {
      var n := |names| - 1;
      FullNodesAddUp(c, names[..n], limit);
      assert !Eligible(c, limit, names[n]);
      assert |names| * limit == n * limit + limit;
    }
  }

  /** With the required number of ready nodes, and fewer than the desired engines
      placed on them, some node is below the balanced limit, so the first claim
      succeeds and nothing overflows. */
  lemma PreferredClaimSucceeds(c: Claims, names: seq<string>, preferred: int, desired: int)
    requires preferred > 0 && desired > 0
    requires |names| >= RequiredNodes(preferred, desired) && SumLoads(c, names) < desired
    ensures exists v :: v in names && Eligible(c, EffectiveLimit(preferred, desired), v)
  {
    hide Eligible, SumLoads, EffectiveLimit, RequiredNodes;
    var limit := EffectiveLimit(preferred, desired);
    var n := RequiredNodes(preferred, desired);
    LimitCoversDesired(preferred, desired);
    assert limit * n == n * limit;
    MulMore(n, |names|, limit);
    if forall v :: v in names ==> !Eligible(c, limit, v) {
      FullNodesAddUp(c, names, limit);
    }
  }
}
