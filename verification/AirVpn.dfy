/** The credential record shared by the two pools of this package. */
module Credentials {
  import opened Common

  /** A VPN credential. Its port field is a list of items, None where an item is
      not a number; airvpn says that its provider is AirVPN. */
  datatype Credential = Credential(id: string, airvpn: bool, items: seq<Option<int>>)
}

/** The pool of pre-allocated AirVPN ports (controlplane/vpn/airvpn_ports.go). */
module AirVpn {
  import opened Common
  import opened Credentials

  predicate IsPort(n: int) {
    0 < n <= 65535
  }

  /** The usable numbers of a port field, in order. */
  function FirewallPorts(items: seq<Option<int>>): (ports: seq<int>)
    ensures forall p :: p in ports <==> IsPort(p) && Some(p) in items
  {
    if items == [] then []
    else
      var rest := FirewallPorts(items[1..]);
      match items[0]
      case Some(n) => if IsPort(n) then [n] + rest else rest
      case None => rest
  }

  /** The ports that some AirVPN credential of the list carries. */
  predicate Carried(creds: seq<Credential>, p: int) {
    exists c :: c in creds && c.airvpn && p in FirewallPorts(c.items)
  }

  /** Carried, in fields: a number from 1 to 65535 that a credential of provider
      AirVPN lists. */
  lemma CarriedMeans(creds: seq<Credential>)
    ensures forall p :: Carried(creds, p) <==> exists c :: c in creds && c.airvpn && Some(p) in c.items && 1 <= p <= 65535
  {
    forall p | Carried(creds, p) ensures exists c :: c in creds && c.airvpn && Some(p) in c.items && 1 <= p <= 65535 {
      var c :| c in creds && c.airvpn && p in FirewallPorts(c.items);
    }
  }

  // ---- the pool as a value ----

  datatype Pool = Pool(all: seq<int>, claimed: map<int, string>, byCont: map<string, int>)

  /** The two claim maps are inverse to each other and inside the universe. */
  ghost predicate Sound(p: Pool) {
    && Distinct(p.all)
    && (forall n :: n in p.all ==> IsPort(n))
    && (forall n :: n in p.claimed ==> n in p.all && p.claimed[n] in p.byCont && p.byCont[p.claimed[n]] == n)
    && (forall c :: c in p.byCont ==> p.byCont[c] in p.claimed && p.claimed[p.byCont[c]] == c)
  }

  const NO_PORTS := Pool([], map[], map[])

  /** The position of the first unclaimed port, or the number of ports. */
  function FirstFree(all: seq<int>, claimed: map<int, string>): (i: nat)
    ensures i <= |all|
    ensures forall j :: 0 <= j < i ==> all[j] in claimed
    ensures i < |all| ==> all[i] !in claimed
  {
    if all == [] then 0
    else if all[0] !in claimed then 0
    else 1 + FirstFree(all[1..], claimed)
  }

  function Acquired(p: Pool, c: string): Pool {
    var i := FirstFree(p.all, p.claimed);
    if c in p.byCont || i == |p.all| then p
    else p.(claimed := p.claimed[p.all[i] := c], byCont := p.byCont[c := p.all[i]])
  }

  function Released(p: Pool, c: string): Pool {
    if c in p.byCont then p.(claimed := p.claimed - {p.byCont[c]}, byCont := p.byCont - {c}) else p
  }

  /** A rebuilt pool: the universe is what the credentials carry, and exactly the
      claims on ports outside it are gone. */
  ghost predicate Rebuilt(p: Pool, creds: seq<Credential>, q: Pool) {
    && Distinct(q.all)
    && (forall n :: n in q.all <==> Carried(creds, n))
    && q == Kept(p, set n | n in q.all).(all := q.all)
  }

  /** The pool with only the claims on some ports. */
  function Kept(p: Pool, live: set<int>): Pool {
    Pool(p.all, map n | n in p.claimed && n in live :: p.claimed[n], map c | c in p.byCont && p.byCont[c] in live :: p.byCont[c])
  }

  lemma KeptMeans(p: Pool, live: set<int>)
    ensures forall c :: c in Kept(p, live).byCont <==> c in p.byCont && p.byCont[c] in live
    ensures forall c :: c in Kept(p, live).byCont ==> Kept(p, live).byCont[c] == p.byCont[c]
  {
  }

  lemma KeptAll(p: Pool, live: set<int>)
    requires Sound(p) && p.claimed.Keys <= live
    ensures Kept(p, live) == p
  {
  }

  /** Evicting one claim through both maps. */
  lemma EvictOne(p: Pool, live: set<int>, n: int)
    requires Sound(p) && n in p.claimed && n in live
    ensures var k := Kept(p, live);
      n in k.claimed && Kept(p, live - {n}) == k.(claimed := k.claimed - {n}, byCont := k.byCont - {k.claimed[n]})
  {
  }

  lemma SomeMember(ports: set<int>)
    requires ports != {}
    ensures exists n :: n in ports
  {
    if forall n :: n !in ports {
      assert false;
    }
  }

  class AirVpnPool {
    var all: seq<int>
    var claimed: map<int, string>
    var byCont: map<string, int>

    function View(): Pool
      reads this
    {
      Pool(all, claimed, byCont)
    }

    constructor ()
      ensures View() == NO_PORTS
    {
      all, claimed, byCont := [], map[], map[];
    }

    method Rebuild(creds: seq<Credential>)
      requires Sound(View())
      modifies this
      ensures Sound(View()) && Rebuilt(old(View()), creds, View())
      ensures forall n :: n in all <==> exists c :: c in creds && c.airvpn && Some(n) in c.items && 1 <= n <= 65535
      ensures forall c :: c in byCont <==> c in old(byCont) && old(byCont)[c] in all
      ensures forall c :: c in byCont ==> byCont[c] == old(byCont)[c]
    {
      CarriedMeans(creds);
      hide Sound, Kept, Carried;
      ghost var before := View();
      var universe := Universe(creds);
      all := universe;
      EvictStale(before);
      KeptMeans(before, set n | n in all);
      RebuiltSound(before, creds, View());
    }

    /** Drops the claims on ports outside the universe, in any order. */
    method EvictStale(ghost before: Pool)
      requires Sound(before) && claimed == before.claimed && byCont == before.byCont
      modifies this`claimed, this`byCont
      ensures View() == Kept(before, set n | n in all).(all := all)
    {
      hide Kept, Sound;
      var rest := claimed.Keys;
      ghost var universe := set n | n in all;
      KeptAll(before, universe + rest);
      while rest != {}
        invariant rest <= before.claimed.Keys
        invariant View() == Kept(before, universe + rest).(all := all)
        decreases rest
      {
        SomeMember(rest);
        var n :| n in rest;
        if n !in all {
          EvictOne(before, universe + rest, n);
          assert universe + (rest - {n}) == universe + rest - {n};
          byCont := byCont - {claimed[n]};
          claimed := claimed - {n};
        } else {
          assert universe + (rest - {n}) == universe + rest;
        }
        rest := rest - {n};
      }
      assert universe + rest == universe;
    }

    /** A free port for the container, or the one it has; 0 when there is none. */
    method AcquirePort(c: string) returns (port: int)
      requires Sound(View())
      modifies this`claimed, this`byCont
      ensures View() == Acquired(old(View()), c)
      ensures port == if c in byCont then byCont[c] else 0
    {
      if c in byCont {
        return byCont[c];
      }
      for i := 0 to |all|
        invariant View() == old(View())
        invariant forall j :: 0 <= j < i ==> all[j] in claimed
      {
        if all[i] !in claimed {
          assert FirstFree(all, claimed) == i;
          claimed := claimed[all[i] := c];
          byCont := byCont[c := all[i]];
          return byCont[c];
        }
      }
      return 0;
    }

    method ReleasePort(c: string)
      modifies this`claimed, this`byCont
      ensures View() == Released(old(View()), c)
    {
      if c in byCont {
        claimed := claimed - {byCont[c]};
        byCont := byCont - {c};
      }
    }
  }

  /** The ports of all AirVPN credentials, each once. */
  method Universe(creds: seq<Credential>) returns (universe: seq<int>)
    ensures Distinct(universe) && forall n :: n in universe <==> Carried(creds, n)
  {
    hide Carried;
    universe := [];
    CarriedNone();
    for i := 0 to |creds|
      invariant Distinct(universe)
      invariant forall n :: n in universe <==> Carried(creds[..i], n)
    {
      ghost var u := universe;
      CarriedSnoc(creds[..i], creds[i]);
      assert creds[..i + 1] == creds[..i] + [creds[i]];
      if creds[i].airvpn {
        var ports := FirewallPorts(creds[i].items);
        for j := 0 to |ports|
          invariant Distinct(universe)
          invariant forall n :: n in universe <==> n in u || n in ports[..j]
        {
          assert ports[..j + 1] == ports[..j] + [ports[j]];
          if ports[j] !in universe {
            universe := universe + [ports[j]];
          }
        }
        assert ports[..|ports|] == ports;
      }
    }
    assert creds[..|creds|] == creds;
  }

  lemma CarriedNone()
    ensures forall n :: !Carried([], n)
  {
  }

  lemma RebuiltSound(p: Pool, creds: seq<Credential>, q: Pool)
    requires Sound(p) && Rebuilt(p, creds, q)
    ensures Sound(q)
  {
  }

  lemma CarriedSnoc(creds: seq<Credential>, c: Credential)
    ensures forall n :: Carried(creds + [c], n) <==> Carried(creds, n) || (c.airvpn && n in FirewallPorts(c.items))
  {
    assert c in creds + [c];
    forall n | Carried(creds, n) ensures Carried(creds + [c], n) {
      var d :| d in creds && d.airvpn && n in FirewallPorts(d.items);
      assert d in creds + [c];
    }
  }

  // ---- properties ----

  /** An acquire fails exactly when the container has no port and every port of
      the universe is claimed; it never takes a port someone else holds. */
  lemma AcquireOutcome(p: Pool, c: string)
    requires Sound(p)
    ensures Sound(Acquired(p, c))
    ensures c !in Acquired(p, c).byCont <==> c !in p.byCont && (forall n :: n in p.all ==> n in p.claimed)
    ensures forall d :: d in p.byCont ==> d in Acquired(p, c).byCont && Acquired(p, c).byCont[d] == p.byCont[d]
    ensures forall d :: d in Acquired(p, c).byCont && d !in p.byCont ==> d == c && Acquired(p, c).byCont[d] !in p.claimed
  {
    var i := FirstFree(p.all, p.claimed);
    if i < |p.all| {
      var n := p.all[i];
      assert n in p.all && n !in p.claimed;
    } else {
      forall n | n in p.all ensures n in p.claimed {
        var j :| 0 <= j < |p.all| && p.all[j] == n;
      }
    }
  }

  /** Acquire for a newcomer followed by its release changes nothing. */
  lemma ReleaseUndoesAcquire(p: Pool, c: string)
    requires Sound(p) && c !in p.byCont
    ensures Released(Acquired(p, c), c) == p
  {
    var i := FirstFree(p.all, p.claimed);
    if i < |p.all| {
      assert p.claimed[p.all[i] := c] - {p.all[i]} == p.claimed;
      assert p.byCont[c := p.all[i]] - {c} == p.byCont;
    }
  }

  /** The size of the universe is what is claimed plus what is free. */
  lemma ClaimsAddUp(p: Pool)
    requires Sound(p)
    ensures |p.claimed| == |p.byCont|
    ensures |p.all| == |p.claimed| + |set n | n in p.all && n !in p.claimed|
  {
    hide Sound;
    SoundDistinct(p);
    DistinctCount(p.all);
    SplitUniverse(p);
    SameSize(p, p.claimed.Keys);
    Claimants(p);
  }

  lemma ClaimedInside(p: Pool)
    requires Sound(p)
    ensures forall n :: n in p.claimed ==> n in p.all
  {
  }

  lemma SoundDistinct(p: Pool)
    requires Sound(p)
    ensures Distinct(p.all)
  {
  }

  lemma SplitUniverse(p: Pool)
    requires Sound(p)
    ensures |set n | n in p.all| == |p.claimed| + |set n | n in p.all && n !in p.claimed|
  {
    hide Sound;
    var all, free := set n | n in p.all, set n | n in p.all && n !in p.claimed;
    ClaimedInside(p);
    forall n ensures n in all <==> n in p.claimed.Keys + free {
    }
    assert all == p.claimed.Keys + free;
  }

  lemma Claimants(p: Pool)
    requires Sound(p)
    ensures (set n | n in p.claimed.Keys :: p.claimed[n]) == p.byCont.Keys
  {
    var cs := set n | n in p.claimed.Keys :: p.claimed[n];
    forall c | c in p.byCont ensures c in cs {
      var n := p.byCont[c];
      assert n in p.claimed.Keys && p.claimed[n] == c;
    }
  }

  lemma {:induction false} DistinctCount(s: seq<int>)
    requires Distinct(s)
    ensures |set n | n in s| == |s|
  {
    if s != [] {
      DistinctCount(s[1..]);
      assert (set n | n in s) == {s[0]} + set n | n in s[1..];
    }
  }

  lemma {:induction false} SameSize(p: Pool, ports: set<int>)
    requires Sound(p) && ports <= p.claimed.Keys
    ensures |set n | n in ports :: p.claimed[n]| == |ports|
  {
    if ports != {} {
      SomeMember(ports);
      var m :| m in ports;
      SameSize(p, ports - {m});
      var others := set n | n in ports - {m} :: p.claimed[n];
      assert (set n | n in ports :: p.claimed[n]) == others + {p.claimed[m]};
    }
  }

  // ---- runs ----

  datatype Op = Rebuild(creds: seq<Credential>) | Acquire(c: string) | Release(c: string)

  ghost predicate Step(p: Pool, op: Op, q: Pool) {
    match op
    case Rebuild(creds) => Rebuilt(p, creds, q)
    case Acquire(c) => q == Acquired(p, c)
    case Release(c) => q == Released(p, c)
  }

  ghost predicate Run(states: seq<Pool>, ops: seq<Op>) {
    |states| == |ops| + 1 && forall k :: 0 <= k < |ops| ==> Step(states[k], ops[k], states[k + 1])
  }

  lemma StepSound(p: Pool, op: Op, q: Pool)
    requires Sound(p) && Step(p, op, q)
    ensures Sound(q)
  {
    match op
    case Rebuild(creds) =>
    case Acquire(c) => AcquireOutcome(p, c);
    case Release(c) =>
  }

  /** Whatever happens, the claims stay inverse maps inside the universe. */
  lemma {:induction false} ClaimsAlwaysInverse(states: seq<Pool>, ops: seq<Op>, n: nat)
    requires Run(states, ops) && Sound(states[0]) && n < |states|
    ensures Sound(states[n])
  {
    if n > 0 {
      ClaimsAlwaysInverse(states, ops, n - 1);
      StepSound(states[n - 1], ops[n - 1], states[n]);
    }
  }

  /** Operations that cost a container its port: its own release, or a rebuild
      without it. */
  predicate Takes(op: Op, c: string, port: int) {
    match op
    case Rebuild(creds) => !Carried(creds, port)
    case Acquire(_) => false
    case Release(d) => d == c
  }

  /** A container keeps its port, and no other container gets it, for exactly as
      long as nothing takes it away. */
  lemma {:induction false} PortIsKept(states: seq<Pool>, ops: seq<Op>, c: string, n: nat)
    requires Run(states, ops) && Sound(states[0]) && n < |states| && c in states[0].byCont
    requires forall k :: 0 <= k < n ==> !Takes(ops[k], c, states[0].byCont[c])
    ensures c in states[n].byCont && states[n].byCont[c] == states[0].byCont[c]
    ensures forall d :: d in states[n].byCont && states[n].byCont[d] == states[0].byCont[c] ==> d == c
    ensures n < |ops| ==>
      (c in states[n + 1].byCont && states[n + 1].byCont[c] == states[0].byCont[c] <==> !Takes(ops[n], c, states[0].byCont[c]))
  {
    ClaimsAlwaysInverse(states, ops, n);
    if n > 0 {
      PortIsKept(states, ops, c, n - 1);
    }
    if n < |ops| {
      KeptByStep(states[n], ops[n], states[n + 1], c);
    }
  }

  lemma KeptByStep(p: Pool, op: Op, q: Pool, c: string)
    requires Sound(p) && Step(p, op, q) && c in p.byCont
    ensures c in q.byCont && q.byCont[c] == p.byCont[c] <==> !Takes(op, c, p.byCont[c])
  {
    match op
    case Rebuild(creds) =>
    case Acquire(d) => AcquireOutcome(p, d);
    case Release(d) =>
  }
}
