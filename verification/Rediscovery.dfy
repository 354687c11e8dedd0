/** Why adoptions have to fit: a container that vanishes from the store and is
    found again while a scheduler holds claims on its node. */
module Rediscovery {
  import opened Common
  import opened Store
  import opened Placement
  import opened Scheduling

  const LIMITS := Limits(1, 1)
  const NODE := Node("v", true, true, false, true)
  const OLD := Engine("old", "v", true, Healthy, false, 0, 0)
  const NEW := Engine("new", "v", true, Healthy, false, 0, 0)

  lemma First()
    ensures Behavior(LIMITS, false, [INITIAL])
  {
  }

  /** A run, longer by one event. */
  lemma Extended(trace: seq<State>, ev: Event) returns (longer: seq<State>)
    requires |trace| > 0 && Behavior(LIMITS, false, trace) && Enabled(LIMITS, trace[|trace| - 1], ev)
    ensures Behavior(LIMITS, false, longer)
    ensures |longer| == |trace| + 1 && longer[|trace|] == Next(LIMITS, trace[|trace| - 1], ev)
  {
    hide Enabled, Next;
    longer := trace + [Next(LIMITS, trace[|trace| - 1], ev)];
    forall i | 0 <= i < |longer| - 1 ensures Follows(LIMITS, false, longer[i], longer[i + 1]) {
      if i < |trace| - 1 {
        assert Follows(LIMITS, false, trace[i], trace[i + 1]);
      }
    }
  }

  /** With no engine and no claim on the node, it can be chosen. */
  lemma CanPlace(c: Claims)
    requires c.engines == map[] && Count(c.vpnPending, "v") == 0
    ensures PlacedWell(c, [NODE], 1, 1, 1, "v")
  {
    assert ReadyNames([NODE]) == ["v"] by {
      assert [NODE][..0] == [];
    }
    assert OnNode(c.engines, "v") == {};
    assert EffectiveLimit(1, 1) == 1;
    assert ["v"][0] == "v" && Eligible(c, 1, "v");
    assert IsChoice(c, ["v"], 1, "v");
  }

  /** The leader registers and vanishes from the store; a scheduler claims its node. */
  lemma LeaderVanishes() returns (trace: seq<State>)
    ensures |trace| == 4 && Behavior(LIMITS, false, trace)
    ensures trace[3].claims.engines == map[] && trace[3].claims.forwardedPending == {}
    ensures trace[3].tasks == map[0 := Placed("v")] && Count(trace[3].claims.vpnPending, "v") == 1
  {
    hide PlacedWell, Behavior;
    First();
    trace := Extended([INITIAL], Adopt(OLD));
    assert trace[1].claims.engines == map["old" := OLD];
    trace := Extended(trace, Remove("old"));
    assert trace[2].claims.engines == map[];
    CanPlace(trace[2].claims);
    trace := Extended(trace, Place(0, "v", [NODE], 1));
  }

  /** The scheduler gets ports and the leader slot, and starts its container. */
  lemma LeaderReplaced() returns (trace: seq<State>)
    ensures |trace| == 8 && Behavior(LIMITS, false, trace)
    ensures trace[7].claims.engines == map[] && "v" in trace[7].claims.forwardedPending
    ensures trace[7].tasks == map[0 := Running("v", true)] && Count(trace[7].claims.vpnPending, "v") == 1
  {
    hide Behavior;
    trace := LeaderVanishes();
    trace := Extended(trace, Step(0, PortsAllocated));
    assert trace[4].tasks == map[0 := Ported("v")];
    assert CanLead(trace[4].claims, "v") by {
      assert Leaders(map[], "v") == {};
    }
    trace := Extended(trace, Step(0, Elect));
    assert trace[5].tasks == map[0 := Waiting("v")];
    trace := Extended(trace, Step(0, PortFound));
    assert trace[6].tasks == map[0 := Ready("v", true)];
    trace := Extended(trace, Step(0, Start));
  }

  /** Found again before the new container registers, the old leader uses up the
      new one's claims: then there are two leaders, on a node for one engine. */
  lemma LateDiscoveryBreaksBoth() returns (trace: seq<State>)
    ensures Behavior(LIMITS, false, trace)
    ensures var c := trace[|trace| - 1].claims;
      |Leaders(c.engines, "v")| == 2 && Load(c, "v") == 2 > Max(LIMITS.preferred, LIMITS.hard)
  {
    hide Behavior;
    trace := LeaderReplaced();
    trace := Extended(trace, Adopt(OLD));
    assert trace[8].claims.engines == map["old" := OLD];
    trace := Extended(trace, Register(0, NEW));
    var engines := trace[9].claims.engines;
    assert engines == map["old" := OLD, "new" := NEW];
    assert Leaders(engines, "v") == {"old", "new"} && OnNode(engines, "v") == {"old", "new"};
  }
}
