/** Resolving one engine's resources, and giving them back. Seen alone, without
    other schedulers in between; Scheduling has the interleavings. */
module Provisioner {
  import opened Store
  import opened Placement
  import P = Ports

  datatype Spec = Spec(vpn: string, info: P.PortsInfo, forwarded: bool)

  datatype Scheduled = Built(spec: Spec) | Failed | NeverReturns

  /** The same claims, whatever counters are stored as absent or zero. */
  ghost predicate SameClaims(a: Claims, b: Claims) {
    a.engines == b.engines && a.forwardedPending == b.forwardedPending
    && forall v :: Count(a.vpnPending, v) == Count(b.vpnPending, v)
  }

  lemma UnclaimUndoesClaim(c: Claims, v: string)
    ensures SameClaims(Unclaimed(Claimed(c, v), v), c)
  {
  }

  /** forwardedPort is what waiting for the node's port returned, 0 if nothing. */
  method ElectForwardedEngine(st: Store, vpn: string, supported: bool, forwardedPort: int) returns (forwarded: bool)
    modifies st`forwardedPending
    ensures forwarded <==> vpn != "" && supported && CanLead(old(st.ClaimsView()), vpn) && forwardedPort > 0
    ensures st.ClaimsView() ==
      if forwarded then LeaderPending(old(st.ClaimsView()), vpn, true) else old(st.ClaimsView())
  {
    if vpn == "" || !supported {
      return false;
    }
    var won := st.TryClaimForwardedSlot(vpn);
    if !won {
      return false;
    }
    if forwardedPort > 0 {
      return true;
    }
    st.SetForwardedPending(vpn, false);
    assert st.forwardedPending == old(st.forwardedPending);
    return false;
  }

  /** Too few free ports for an engine on that node. */
  ghost predicate OutOfPorts(cfg: P.Config, s: P.Pools, vpn: string, mapHttps: bool) {
    |P.MainFree(cfg, s, vpn)| < P.Needed(vpn, mapHttps) || P.Free(cfg.https, s.https) == {}
  }

  /** The allocator gave up: too few ports, and every mark is back but the one that
      FailureUnmarks names; a range assigned to the node stays assigned. */
  ghost predicate GaveUp(cfg: P.Config, hostNext: int, before: P.Pools, after: P.Pools, vpn: string, mapHttps: bool) {
    var ranged := P.Ensured(cfg, before, vpn);
    OutOfPorts(cfg, ranged, vpn, mapHttps)
    && after == ranged.(http := ranged.http - P.FailureUnmarks(cfg, hostNext, ranged, vpn))
  }

  lemma EnsuredKeepsHttps(cfg: P.Config, s: P.Pools, vpn: string)
    ensures P.Ensured(cfg, s, vpn).https == s.https
  {
  }

  /** Node, then ports, then leader. It fails only for want of a node, and then
      changes nothing, or of ports, and then every claim and mark is back but the
      one that GaveUp names. */
  method ScheduleNewEngine(st: Store, alloc: P.PortAllocator, nodes: seq<Node>, vpnEnabled: bool,
                           preferred: int, hard: int, desired: int, mapHttps: bool,
                           supported: bool, forwardedPort: int) returns (r: Scheduled)
    requires alloc.Valid() && forall n :: n in nodes && n.ready ==> n.name != ""
    modifies st`vpnPending, st`forwardedPending, alloc
    ensures alloc.Valid()
    ensures r.Failed? ==> SameClaims(st.ClaimsView(), old(st.ClaimsView()))
    ensures r.Failed? ==>
      if MustWait(old(st.ClaimsView()), nodes, vpnEnabled, preferred, hard, desired) then alloc.View() == old(alloc.View())
      else exists v :: (v == "" || PlacedWell(old(st.ClaimsView()), nodes, preferred, hard, desired, v))
             && GaveUp(alloc.cfg, old(alloc.hostNext), old(alloc.View()), alloc.View(), v, mapHttps)
    ensures r.NeverReturns? ==> exists hp :: P.Free(alloc.cfg.https, old(alloc.View()).https) == {hp}
    ensures r.Built? ==>
      var c, v := old(st.ClaimsView()), r.spec.vpn;
      (if v == "" then nodes == [] && !vpnEnabled && !r.spec.forwarded && st.ClaimsView() == c
       else
         PlacedWell(c, nodes, preferred, hard, desired, v)
         && (r.spec.forwarded <==> supported && CanLead(c, v) && forwardedPort > 0)
         && st.ClaimsView() == (if r.spec.forwarded then LeaderPending(Claimed(c, v), v, true) else Claimed(c, v)))
    ensures r.Built? ==>
      P.AllocationOk(alloc.cfg, P.Ensured(alloc.cfg, old(alloc.View()), r.spec.vpn), alloc.View(), r.spec.vpn, mapHttps, r.spec.info)
  {
    hide P.AllocationOk, P.Ensured, P.MainFree, P.Free, P.FailureUnmarks, PlacedWell, MustWait;
    var placement := SelectVpnContainer(st, nodes, vpnEnabled, preferred, hard, desired);
    if placement.Blocked? {
      return Failed;
    }
    var vpn := if placement.On? then placement.node else "";
    EnsuredKeepsHttps(alloc.cfg, alloc.View(), vpn);
    var ports := alloc.AllocateEnginePorts(vpn, mapHttps);
    if ports.Spun? {
      return NeverReturns;
    }
    if ports.NoPort? {
      assert GaveUp(alloc.cfg, old(alloc.hostNext), old(alloc.View()), alloc.View(), vpn, mapHttps);
      if vpn != "" {
        st.DecrVpnPending(vpn);
        UnclaimUndoesClaim(old(st.ClaimsView()), vpn);
      }
      return Failed;
    }
    var forwarded := ElectForwardedEngine(st, vpn, supported, forwardedPort);
    return Built(Spec(vpn, ports.info, forwarded));
  }

  /** Frees everything a spec holds. */
  method ReleaseSpec(st: Store, alloc: P.PortAllocator, spec: Spec)
    requires alloc.Valid()
    modifies st`vpnPending, st`forwardedPending, alloc
    ensures alloc.Valid() && alloc.View() == P.Forgotten(old(alloc.View()), P.LabelsOf(spec.vpn, spec.info))
    ensures st.ClaimsView() == ReleasedClaims(old(st.ClaimsView()), spec)
  {
    alloc.ReleaseFromLabels(P.LabelsOf(spec.vpn, spec.info));
    if spec.vpn != "" {
      st.DecrVpnPending(spec.vpn);
      if spec.forwarded {
        st.SetForwardedPending(spec.vpn, false);
      }
    }
  }

  function ReleasedClaims(c: Claims, spec: Spec): Claims {
    if spec.vpn == "" then c
    else
      var c' := Unclaimed(c, spec.vpn);
      if spec.forwarded then LeaderPending(c', spec.vpn, false) else c'
  }

  /** Releasing a spec right after building it gives back exactly its claims. */
  lemma ReleaseUndoesSchedule(c: Claims, spec: Spec)
    requires spec.vpn != "" && (spec.forwarded ==> CanLead(c, spec.vpn))
    ensures var built := if spec.forwarded then LeaderPending(Claimed(c, spec.vpn), spec.vpn, true) else Claimed(c, spec.vpn);
      SameClaims(ReleasedClaims(built, spec), c)
  {
    var v := spec.vpn;
    assert spec.forwarded ==> c.forwardedPending + {v} - {v} == c.forwardedPending;
  }

  lemma SetBack(u: set<int>, x: set<int>)
    requires x !! u
    ensures u + x - x == u
  {
  }

  lemma SetSame(u: set<int>, p: int)
    ensures u - {p} == u <==> p !in u
    ensures u + {p} - {p} == u - {p}
  {
  }

  ghost predicate NonzeroPorts(info: P.PortsInfo, mapped: bool) {
    info.hostHttp != 0 && info.hostApi != 0 && info.containerHttps != 0 && (mapped <==> info.hostHttps != 0)
  }

  /** Releasing a built spec gives back exactly its ports too: off VPN, unless its
      port had been marked as an HTTP port before. */
  lemma ReleaseUndoesHostAllocation(cfg: P.Config, before: P.Pools, after: P.Pools, info: P.PortsInfo, mapHttps: bool)
    requires P.AllocationOk(cfg, before, after, "", mapHttps, info) && NonzeroPorts(info, mapHttps)
    ensures P.Forgotten(after, P.LabelsOf("", info)) == before <==> info.hostHttp !in before.http
  {
    var main := P.MainPorts(info, mapHttps);
    assert main !! before.host;
    SetBack(before.host, main);
    SetBack(before.https, {info.containerHttps});
    SetSame(before.http, info.hostHttp);
    var freed := P.Forgotten(after, P.LabelsOf("", info));
    assert freed.host == before.host + main - main;
  }

  /** What is left of an allocation behind a VPN after its release: nothing, and
      the same number is unmarked as a host and HTTP port. */
  lemma FreedBehindVpn(cfg: P.Config, before: P.Pools, after: P.Pools, vpn: string, info: P.PortsInfo, mapHttps: bool)
    requires vpn != "" && P.AllocationOk(cfg, before, after, vpn, mapHttps, info) && NonzeroPorts(info, false)
    ensures P.Forgotten(after, P.LabelsOf(vpn, info))
         == before.(host := before.host - {info.hostHttp}, http := before.http - {info.hostHttp})
  {
    hide P.Free, P.MainFree;
    var main := P.MainPorts(info, false);
    var u := P.UsedBy(before, vpn);
    P.FreeIsFree(cfg, before, vpn);
    assert main !! u;
    SetBack(u, main);
    FreeHttps(cfg.https, before.https, info.containerHttps);
    SetBack(before.https, {info.containerHttps});
    assert u + main - {info.hostHttp} - {info.hostApi} == u + main - main;
    assert before.http + {} == before.http;
    BackInPool(before, vpn, u + main, u);
  }

  /** And behind a VPN, unless its port had been marked as a host or HTTP port. */
  lemma ReleaseUndoesVpnAllocation(cfg: P.Config, before: P.Pools, after: P.Pools, vpn: string, info: P.PortsInfo, mapHttps: bool)
    requires vpn != "" && P.AllocationOk(cfg, before, after, vpn, mapHttps, info) && NonzeroPorts(info, false)
    ensures P.Forgotten(after, P.LabelsOf(vpn, info)) == before
      <==> info.hostHttp !in before.http && info.hostHttp !in before.host
  {
    hide P.AllocationOk, P.Forgotten;
    FreedBehindVpn(cfg, before, after, vpn, info, mapHttps);
    SetSame(before.http, info.hostHttp);
    SetSame(before.host, info.hostHttp);
  }

  lemma FreeHttps(r: P.Range, used: set<int>, p: int)
    requires p in P.Free(r, used)
    ensures p !in used
  {
  }

  lemma BackInPool(s: P.Pools, vpn: string, more: set<int>, u: set<int>)
    requires u == P.UsedBy(s, vpn)
    ensures vpn in s.ranges ==> s.ranges[vpn := more][vpn := u] == s.ranges
  {
  }
}
