/** The pool of VPN credentials and its leases (controlplane/vpn/credentials.go). */
module Leases {
  import opened Common
  import AirVpn
  import opened Credentials

  // ---- the pool as a value ----

  /** byId: the credentials; available: ids free to lease, oldest first;
      leases: which credential a container holds, and since when. */
  datatype Book = Book(byId: map<string, Credential>, available: seq<string>, leases: map<string, string>, times: map<string, int>)

  const NO_CREDENTIALS := Book(map[], [], map[], map[])

  /** No credential is ever in two places: queued once at most, and then not
      leased; leased to one container at most. */
  ghost predicate Safe(b: Book) {
    && Distinct(b.available)
    && (forall id :: id in b.available ==> id in b.byId && id !in b.leases.Values)
    && (forall c :: c in b.leases ==> b.leases[c] in b.byId)
    && (forall c, d :: c in b.leases && d in b.leases && b.leases[c] == b.leases[d] ==> c == d)
    && b.times.Keys == b.leases.Keys
  }

  /** Every credential is somewhere. */
  ghost predicate Covered(b: Book) {
    forall id :: id in b.byId ==> id in b.available || id in b.leases.Values
  }

  ghost predicate Partition(b: Book) {
    Safe(b) && Covered(b)
  }

  /** The containers that hold a credential. */
  function Holders(b: Book, id: string): set<string> {
    set c | c in b.leases && b.leases[c] == id
  }

  // ---- what the operations do ----

  function Acquired(b: Book, c: string, now: int): Book {
    if c in b.leases || b.available == [] then b
    else b.(available := b.available[1..], leases := b.leases[c := b.available[0]], times := b.times[c := now])
  }

  function Released(b: Book, c: string): Book {
    if c !in b.leases then b
    else
      var id := b.leases[c];
      b.(leases := b.leases - {c}, times := b.times - {c},
         available := if id in b.byId then b.available + [id] else b.available)
  }

  /** Credentials by id; of two with one id the later counts. */
  function ById(creds: seq<Credential>): map<string, Credential> {
    if creds == [] then map[]
    else
      var c := creds[|creds| - 1];
      ById(creds[..|creds| - 1])[c.id := c]
  }

  /** Leases of credentials that no longer exist are dropped; the queue is
      rebuilt in no particular order. */
  ghost predicate Configured(b: Book, creds: seq<Credential>, q: Book) {
    && q.byId == ById(creds)
    && q.leases == (map c | c in b.leases && b.leases[c] in q.byId :: b.leases[c])
    && q.times == (map c | c in b.times && c in q.leases :: b.times[c])
    && FreshQueue(q, q.leases.Values)
  }

  ghost predicate FreshQueue(q: Book, used: set<string>) {
    Distinct(q.available) && forall id :: id in q.available <==> id in q.byId && id !in used
  }

  /** A live container as found on start-up. */
  datatype Node = Node(cred: string, name: string, containerId: string)

  /** The name under which a container's lease is kept: its name, else its id. */
  function KeyOf(n: Node): string {
    if n.name != "" then n.name else n.containerId
  }

  /** The nodes whose lease is restored: a known credential that no earlier one
      carries, and a key. */
  function Accepted(byId: map<string, Credential>, nodes: seq<Node>): seq<Node> {
    if nodes == [] then []
    else
      var before := Accepted(byId, nodes[..|nodes| - 1]);
      var n := nodes[|nodes| - 1];
      if n.cred != "" && n.cred in byId && n.cred !in Creds(before) && KeyOf(n) != "" then before + [n] else before
  }

  function Creds(nodes: seq<Node>): set<string> {
    set n | n in nodes :: n.cred
  }

  /** The leases of a list of nodes; of two under one key the later counts. */
  function LeasesOf(nodes: seq<Node>): map<string, string> {
    if nodes == [] then map[]
    else
      var n := nodes[|nodes| - 1];
      LeasesOf(nodes[..|nodes| - 1])[KeyOf(n) := n.cred]
  }

  ghost predicate Restored(b: Book, nodes: seq<Node>, now: int, q: Book) {
    var kept := Accepted(b.byId, nodes);
    && q.byId == b.byId
    && q.leases == LeasesOf(kept)
    && q.times == (map c | c in q.leases :: now)
    && FreshQueue(q, Creds(kept))
  }

  // ---- the manager ----

  datatype Lease = Lease(containerId: string, credentialId: string, leasedAt: int, credential: Credential)

  class CredentialManager {
    var byId: map<string, Credential>
    var available: seq<string>
    var leases: map<string, string>
    var leaseTimes: map<string, int>
    const airVpnPorts: AirVpn.AirVpnPool

    ghost predicate Valid()
      reads this, airVpnPorts
    {
      Safe(View()) && AirVpn.Sound(airVpnPorts.View())
    }

    ghost function View(): Book
      reads this
    {
      Book(byId, available, leases, leaseTimes)
    }

    constructor ()
      ensures Valid() && Partition(View()) && View() == NO_CREDENTIALS && fresh(airVpnPorts)
    {
      byId, available, leases, leaseTimes := map[], [], map[], map[];
      airVpnPorts := new AirVpn.AirVpnPool();
    }

    /** Replaces the credentials, and with them the universe of AirVPN ports. */
    method Configure(creds: seq<Credential>)
      requires Valid()
      modifies this, airVpnPorts
      ensures Valid() && Configured(old(View()), creds, View())
      ensures exists listed :: (forall c :: c in listed <==> c in ById(creds).Values)
                && AirVpn.Rebuilt(old(airVpnPorts.View()), listed, airVpnPorts.View())
    {
      hide Safe, AirVpn.Sound, AirVpn.Rebuilt;
      ghost var before := View();
      var newById: map<string, Credential> := map[];
      for i := 0 to |creds|
        invariant View() == before && airVpnPorts.View() == old(airVpnPorts.View())
        invariant newById == ById(creds[..i])
      {
        assert creds[..i + 1][..i] == creds[..i];
        newById := newById[creds[i].id := creds[i]];
      }
      assert creds[..|creds|] == creds;
      var active := ActiveIds(newById);
      EvictLeases(newById, before);
      var queue := Unused(newById, active);
      byId := newById;
      available := queue;
      var listed := ListValues(newById);
      airVpnPorts.Rebuild(listed);
      ValuesLeft(before, newById);
      ConfiguredIsPartition(before, creds, View());
    }

    /** Ids of the new pool that some container holds. */
    method ActiveIds(newById: map<string, Credential>) returns (active: set<string>)
      ensures active == set id | id in leases.Values && id in newById
    {
      active := {};
      var rest := leases.Keys;
      while rest != {}
        invariant rest <= leases.Keys
        invariant forall id :: id in active ==> id in leases.Values && id in newById
        invariant forall c :: c in leases && c !in rest && leases[c] in newById ==> leases[c] in active
        decreases rest
      {
        var c :| c in rest;
        if leases[c] in newById {
          active := active + {leases[c]};
        }
        rest := rest - {c};
      }
    }

    method EvictLeases(newById: map<string, Credential>, ghost before: Book)
      requires Safe(before) && leases == before.leases && leaseTimes == before.times
      modifies this`leases, this`leaseTimes
      ensures leases == map c | c in before.leases && before.leases[c] in newById :: before.leases[c]
      ensures leaseTimes == map c | c in before.times && c in leases :: before.times[c]
    {
      hide Safe;
      var rest := leases.Keys;
      ghost var live := set c | c in before.leases && before.leases[c] in newById;
      KeepAll(before.leases, live + rest);
      TimesKeys(before);
      KeepAll(before.times, live + rest);
      while rest != {}
        invariant rest <= before.leases.Keys
        invariant leases == Keep(before.leases, live + rest) && leaseTimes == Keep(before.times, live + rest)
        decreases rest
      {
        var c :| c in rest;
        if leases[c] !in newById {
          leases := leases - {c};
          leaseTimes := leaseTimes - {c};
        }
        rest := rest - {c};
      }
    }

    /** A credential for the container: the one it has, or the one queued
        longest; None when there is none. */
    method AcquireLease(c: string, now: int) returns (lease: Option<Lease>)
      requires Valid()
      modifies this`available, this`leases, this`leaseTimes
      ensures Valid() && View() == Acquired(old(View()), c, now)
      ensures lease == if c in leases then Some(Lease(c, leases[c], leaseTimes[c], byId[leases[c]])) else None
    {
      AcquireKeeps(View(), c, now);
      if c in leases {
        return Some(Lease(c, leases[c], leaseTimes[c], byId[leases[c]]));
      }
      if |available| == 0 {
        return None;
      }
      var id := available[0];
      available := available[1..];
      leases := leases[c := id];
      leaseTimes := leaseTimes[c := now];
      return Some(Lease(c, id, now, byId[id]));
    }

    method ReleaseLease(c: string) returns (held: bool)
      requires Valid()
      modifies this`available, this`leases, this`leaseTimes
      ensures Valid() && View() == Released(old(View()), c)
      ensures held == (c in old(leases))
    {
      ReleaseKeeps(View(), c);
      if c !in leases {
        return false;
      }
      var id := leases[c];
      leases := leases - {c};
      leaseTimes := leaseTimes - {c};
      if id in byId {
        available := available + [id];
      }
      return true;
    }

    /** Rebuilds the leases from live containers. */
    method RestoreLeases(nodes: seq<Node>, now: int)
      requires Valid()
      modifies this`available, this`leases, this`leaseTimes
      ensures Valid() && Restored(old(View()), nodes, now, View())
    {
      hide Accepted, LeasesOf, Creds, Safe;
      ghost var before := View();
      var used: set<string> := {};
      NoneAccepted(byId);
      var newLeases: map<string, string> := map[];
      var newTimes: map<string, int> := map[];
      for i := 0 to |nodes|
        invariant View() == before && airVpnPorts.View() == old(airVpnPorts.View())
        invariant used == Creds(Accepted(byId, nodes[..i])) && newLeases == LeasesOf(Accepted(byId, nodes[..i]))
        invariant newTimes == map c | c in newLeases :: now
      {
        var n := nodes[i];
        AcceptedStep(byId, nodes, i);
        if n.cred == "" || n.cred !in byId || n.cred in used {
          continue;
        }
        var key := KeyOf(n);
        if key == "" {
          continue;
        }
        used := used + {n.cred};
        newLeases := newLeases[key := n.cred];
        newTimes := newTimes[key := now];
      }
      assert nodes[..|nodes|] == nodes;
      leases := newLeases;
      leaseTimes := newTimes;
      available := Unused(byId, used);
      RestoreKeeps(before, nodes, now, View());
    }
  }

  function Keep<T>(m: map<string, T>, live: set<string>): map<string, T> {
    map c | c in m && c in live :: m[c]
  }

  lemma KeepAll<T>(m: map<string, T>, live: set<string>)
    requires m.Keys <= live
    ensures Keep(m, live) == m
  {
  }

  lemma TimesKeys(b: Book)
    requires Safe(b)
    ensures b.times.Keys == b.leases.Keys
  {
  }

  lemma NoneAccepted(byId: map<string, Credential>)
    ensures Accepted(byId, []) == [] && Creds([]) == {} && LeasesOf([]) == map[]
  {
  }

  /** One more node of a restore. */
  lemma AcceptedStep(byId: map<string, Credential>, nodes: seq<Node>, i: nat)
    requires i < |nodes|
    ensures var kept, n := Accepted(byId, nodes[..i]), nodes[i];
      var kept' := Accepted(byId, nodes[..i + 1]);
      if n.cred != "" && n.cred in byId && n.cred !in Creds(kept) && KeyOf(n) != "" then
        Creds(kept') == Creds(kept) + {n.cred} && LeasesOf(kept') == LeasesOf(kept)[KeyOf(n) := n.cred]
      else kept' == kept
  {
    var kept, n := Accepted(byId, nodes[..i]), nodes[i];
    assert nodes[..i + 1][..i] == nodes[..i];
    CredsSnoc(kept, n);
    assert (kept + [n])[..|kept|] == kept;
  }

  lemma CredsSnoc(nodes: seq<Node>, n: Node)
    ensures Creds(nodes + [n]) == Creds(nodes) + {n.cred}
  {
    assert n in nodes + [n];
  }

  /** The ids not in use, each once, in the order a map is walked. */
  method Unused(byId: map<string, Credential>, used: set<string>) returns (queue: seq<string>)
    ensures Distinct(queue) && forall id :: id in queue <==> id in byId && id !in used
  {
    queue := [];
    var rest := byId.Keys;
    while rest != {}
      invariant rest <= byId.Keys && Distinct(queue)
      invariant forall id :: id in queue <==> id in byId && id !in rest && id !in used
      decreases rest
    {
      var id :| id in rest;
      if id !in used {
        queue := queue + [id];
      }
      rest := rest - {id};
    }
  }

  method ListValues(byId: map<string, Credential>) returns (listed: seq<Credential>)
    ensures forall c :: c in listed <==> c in byId.Values
  {
    listed := [];
    var rest := byId.Keys;
    while rest != {}
      invariant rest <= byId.Keys
      invariant forall c :: c in listed ==> c in byId.Values
      invariant forall id :: id in byId && id !in rest ==> byId[id] in listed
      decreases rest
    {
      var id :| id in rest;
      listed := listed + [byId[id]];
      rest := rest - {id};
    }
  }

  // ---- one operation ----

  lemma AcquireKeeps(b: Book, c: string, now: int)
    requires Safe(b)
    ensures Safe(Acquired(b, c, now)) && (Covered(Acquired(b, c, now)) <==> Covered(b))
  {
    var q := Acquired(b, c, now);
    if q != b {
      var id := b.available[0];
      assert b.available == [id] + q.available;
      assert q.leases[c] == id;
      forall x | x in b.leases.Values ensures x in q.leases.Values {
        var d :| d in b.leases && b.leases[d] == x;
        assert q.leases[d] == x;
      }
      assert forall x :: x in q.available ==> x in b.available;
      assert forall x :: x in q.leases.Values ==> x == id || x in b.leases.Values;
    }
  }

  lemma ReleaseKeeps(b: Book, c: string)
    requires Safe(b)
    ensures Safe(Released(b, c)) && (Covered(Released(b, c)) <==> Covered(b))
  {
    var q := Released(b, c);
    if c in b.leases {
      var id := b.leases[c];
      assert id in b.byId && id in q.available;
      forall x | x in b.leases.Values && x != id ensures x in q.leases.Values {
        var d :| d in b.leases && b.leases[d] == x;
        assert q.leases[d] == x;
      }
      assert forall x :: x in q.leases.Values ==> x in b.leases.Values;
    }
  }

  lemma ValuesLeft(b: Book, newById: map<string, Credential>)
    ensures (map c | c in b.leases && b.leases[c] in newById :: b.leases[c]).Values
      == set id | id in b.leases.Values && id in newById
  {
    var left := map c | c in b.leases && b.leases[c] in newById :: b.leases[c];
    forall id | id in b.leases.Values && id in newById ensures id in left.Values {
      var c :| c in b.leases && b.leases[c] == id;
      assert left[c] == id;
    }
  }

  /** Of credentials with one id the last counts. */
  lemma {:induction false} ByIdMeans(creds: seq<Credential>)
    ensures forall x :: x in ById(creds) <==> exists c :: c in creds && c.id == x
    ensures forall k :: 0 <= k < |creds| && IsLast(creds, k) ==> ById(creds)[creds[k].id] == creds[k]
  {
    hide IsLast;
    if creds != [] {
      var n := |creds| - 1;
      ByIdMeans(creds[..n]);
      ByIdStep(creds[..n], creds[n]);
      assert creds == creds[..n] + [creds[n]];
      forall k | 0 <= k < n && IsLast(creds, k) ensures IsLast(creds[..n], k) && creds[k].id != creds[n].id {
        LastStays(creds, k);
      }
    }
  }

  /** No later credential has its id. */
  ghost predicate IsLast(creds: seq<Credential>, k: nat)
    requires k < |creds|
  {
    forall j :: k < j < |creds| ==> creds[j].id != creds[k].id
  }

  lemma LastStays(creds: seq<Credential>, k: nat)
    requires k < |creds| - 1 && IsLast(creds, k)
    ensures IsLast(creds[..|creds| - 1], k) && creds[k].id != creds[|creds| - 1].id
  {
  }

  lemma ByIdStep(creds: seq<Credential>, c: Credential)
    ensures ById(creds + [c]) == ById(creds)[c.id := c]
  {
    assert (creds + [c])[..|creds|] == creds;
  }

  /** Configuring keeps a container's lease, and the time it was given, exactly if
      some credential of the new list has its id, and gives nobody another. */
  lemma ConfigureKeepsLeases(b: Book, creds: seq<Credential>, q: Book)
    requires Safe(b) && Configured(b, creds, q)
    ensures forall c :: c in q.leases <==> c in b.leases && exists d :: d in creds && d.id == b.leases[c]
    ensures forall c :: c in q.leases ==> q.leases[c] == b.leases[c] && c in q.times && q.times[c] == b.times[c]
  {
    hide ById;
    ByIdMeans(creds);
  }

  /** Configure leaves nothing out, whatever the pool was before. */
  lemma ConfiguredIsPartition(b: Book, creds: seq<Credential>, q: Book)
    requires Safe(b) && Configured(b, creds, q)
    ensures Partition(q)
  {
  }

  lemma {:induction false} AcceptedFacts(byId: map<string, Credential>, nodes: seq<Node>)
    ensures forall i, j :: 0 <= i < j < |Accepted(byId, nodes)| ==> Accepted(byId, nodes)[i].cred != Accepted(byId, nodes)[j].cred
    ensures forall n :: n in Accepted(byId, nodes) ==> n in nodes && n.cred in byId && KeyOf(n) != ""
  {
    if nodes != [] {
      AcceptedFacts(byId, nodes[..|nodes| - 1]);
    }
  }

  /** Every entry of the rebuilt leases comes from a node, and the last node of
      each key has its entry. */
  lemma {:induction false} LeasesCome(nodes: seq<Node>)
    ensures forall c :: c in LeasesOf(nodes) ==> exists n :: n in nodes && KeyOf(n) == c && n.cred == LeasesOf(nodes)[c]
    ensures forall n :: n in nodes ==> KeyOf(n) in LeasesOf(nodes)
  {
    if nodes != [] {
      var n := nodes[|nodes| - 1];
      LeasesCome(nodes[..|nodes| - 1]);
      assert n in nodes;
      forall c | c in LeasesOf(nodes)
        ensures exists n :: n in nodes && KeyOf(n) == c && n.cred == LeasesOf(nodes)[c]
      {
        if c != KeyOf(n) {
          var m :| m in nodes[..|nodes| - 1] && KeyOf(m) == c && m.cred == LeasesOf(nodes[..|nodes| - 1])[c];
          assert m in nodes;
        }
      }
    }
  }

  /** No two nodes of the list go under one key. */
  ghost predicate DistinctKeys(nodes: seq<Node>) {
    forall i, j :: 0 <= i < j < |nodes| ==> KeyOf(nodes[i]) != KeyOf(nodes[j])
  }

  /** Restoring never gives a credential to two containers; it keeps every
      credential accounted for exactly when no two restored containers share
      a key. */
  lemma RestoreKeeps(b: Book, nodes: seq<Node>, now: int, q: Book)
    requires Restored(b, nodes, now, q)
    ensures Safe(q)
    ensures Covered(q) <==> DistinctKeys(Accepted(b.byId, nodes))
  {
    hide Safe, Covered, DistinctKeys, LeasesOf, Accepted, Creds;
    var kept := Accepted(b.byId, nodes);
    AcceptedFacts(b.byId, nodes);
    RestoredIsSafe(kept, q);
    LeasedExactly(kept);
    RestoredCovers(kept, q);
  }

  /** What is not queued after a restore is what the kept nodes carry. */
  lemma RestoredCovers(kept: seq<Node>, q: Book)
    requires forall n :: n in kept ==> n.cred in q.byId
    requires FreshQueue(q, Creds(kept))
    ensures Covered(q) <==> Creds(kept) <= q.leases.Values
  {
    if Covered(q) {
      forall x | x in Creds(kept) ensures x in q.leases.Values {
        assert x in q.byId && x !in q.available;
      }
    }
  }

  /** A node counts in a restore: its credential is known, and it has a name or an id. */
  ghost predicate Counts(byId: map<string, Credential>, n: Node) {
    n.cred != "" && n.cred in byId && (n.name != "" || n.containerId != "")
  }

  lemma {:induction false} AcceptedCreds(byId: map<string, Credential>, nodes: seq<Node>)
    ensures forall x :: x in Creds(Accepted(byId, nodes)) <==> exists n :: n in nodes && n.cred == x && Counts(byId, n)
    ensures forall n :: n in Accepted(byId, nodes) ==> n in nodes && Counts(byId, n)
  {
    if nodes != [] {
      var front, last := nodes[..|nodes| - 1], nodes[|nodes| - 1];
      AcceptedCreds(byId, front);
      CredsSnoc(Accepted(byId, front), last);
      assert nodes == front + [last];
    }
  }

  /** A restore, in fields: a container holds a lease under its name, or under its id
      if it has none, of a known credential that a node names; and what is queued is
      what no node that counts names. */
  lemma RestoredExactly(b: Book, nodes: seq<Node>, now: int, q: Book)
    requires Restored(b, nodes, now, q)
    ensures forall c :: c in q.leases ==>
      exists n :: n in nodes && n.cred == q.leases[c] && n.cred in b.byId && c == (if n.name != "" then n.name else n.containerId)
    ensures forall id :: id in q.available <==>
      id in b.byId && !exists n :: n in nodes && n.cred == id && id != "" && (n.name != "" || n.containerId != "")
    ensures forall n :: n in nodes && Counts(b.byId, n) && n.name != "" && (forall m :: m in nodes && m.cred == n.cred ==> m == n) ==>
      n.name in q.leases
  {
    var kept := Accepted(b.byId, nodes);
    AcceptedCreds(b.byId, nodes);
    LeasesCome(kept);
    hide Accepted, LeasesOf;
    forall n | n in nodes && Counts(b.byId, n) && n.name != "" && (forall m :: m in nodes && m.cred == n.cred ==> m == n)
      ensures n.name in q.leases
    {
      assert n.cred in Creds(kept);
      var m :| m in kept && m.cred == n.cred;
      assert m == n && KeyOf(n) == n.name;
    }
  }

  /** Two live containers of one name: the earlier one's credential is neither
      queued nor leased any more. */
  lemma SharedNameLosesCredential(b: Book, x: Node, y: Node, now: int, q: Book)
    requires x.cred != y.cred && x.cred in b.byId && y.cred in b.byId && x.cred != "" && y.cred != ""
    requires KeyOf(x) == KeyOf(y) != ""
    requires Restored(b, [x, y], now, q)
    ensures x.cred in q.byId && x.cred !in q.available && x.cred !in q.leases.Values
  {
    assert [x, y][..1] == [x] && [x][..0] == [];
    assert Accepted(b.byId, [x]) == [x];
    assert Accepted(b.byId, [x, y]) == [x, y];
    Overwritten([x, y], 0, 1);
    assert x in [x, y];
  }

  lemma RestoredIsSafe(kept: seq<Node>, q: Book)
    requires forall i, j :: 0 <= i < j < |kept| ==> kept[i].cred != kept[j].cred
    requires forall n :: n in kept ==> n.cred in q.byId
    requires q.leases == LeasesOf(kept) && q.times.Keys == q.leases.Keys && FreshQueue(q, Creds(kept))
    ensures Safe(q)
  {
    hide LeasesOf, Creds, KeyOf;
    LeasedFrom(kept);
    LeasedOnce(kept);
    CredsKnown(kept, q.byId);
    forall c | c in q.leases ensures q.leases[c] in q.byId {
      assert q.leases[c] in q.leases.Values;
    }
  }

  lemma CredsKnown(kept: seq<Node>, byId: map<string, Credential>)
    requires forall n :: n in kept ==> n.cred in byId
    ensures Creds(kept) <= byId.Keys
  {
  }

  lemma LeasedFrom(kept: seq<Node>)
    ensures LeasesOf(kept).Values <= Creds(kept)
  {
    LeasesCome(kept);
    forall x | x in LeasesOf(kept).Values ensures x in Creds(kept) {
      var c :| c in LeasesOf(kept) && LeasesOf(kept)[c] == x;
    }
  }

  lemma LeasedOnce(kept: seq<Node>)
    requires forall i, j :: 0 <= i < j < |kept| ==> kept[i].cred != kept[j].cred
    ensures forall c, d :: c in LeasesOf(kept) && d in LeasesOf(kept) && LeasesOf(kept)[c] == LeasesOf(kept)[d] ==> c == d
  {
    hide LeasesOf;
    forall c, d | c in LeasesOf(kept) && d in LeasesOf(kept) && LeasesOf(kept)[c] == LeasesOf(kept)[d] ensures c == d {
      LeasesCome(kept);
      var m :| m in kept && KeyOf(m) == c && m.cred == LeasesOf(kept)[c];
      var i :| 0 <= i < |kept| && kept[i] == m;
      OnlyUnderOwnKey(kept, i);
    }
  }

  /** All the credentials of the list are leased exactly when its keys differ. */
  lemma {:induction false} LeasedExactly(kept: seq<Node>)
    requires forall i, j :: 0 <= i < j < |kept| ==> kept[i].cred != kept[j].cred
    ensures Creds(kept) <= LeasesOf(kept).Values <==> DistinctKeys(kept)
    ensures LeasesOf(kept).Values <= Creds(kept)
  {
    LeasedFrom(kept);
    if DistinctKeys(kept) {
      forall k | 0 <= k < |kept| ensures kept[k].cred in LeasesOf(kept).Values {
        OwnLease(kept, k);
      }
    } else {
      var i, j :| 0 <= i < j < |kept| && KeyOf(kept[i]) == KeyOf(kept[j]);
      Overwritten(kept, i, j);
      assert kept[i].cred in Creds(kept);
    }
  }

  lemma {:induction false} OwnLease(kept: seq<Node>, k: nat)
    requires DistinctKeys(kept) && k < |kept|
    ensures KeyOf(kept[k]) in LeasesOf(kept) && LeasesOf(kept)[KeyOf(kept[k])] == kept[k].cred
  {
    if k < |kept| - 1 {
      OwnLease(kept[..|kept| - 1], k);
    }
  }

  /** A node whose key comes again later has lost its lease. */
  lemma {:induction false} Overwritten(kept: seq<Node>, i: nat, j: nat)
    requires forall i, j :: 0 <= i < j < |kept| ==> kept[i].cred != kept[j].cred
    requires i < j < |kept| && KeyOf(kept[i]) == KeyOf(kept[j])
    ensures kept[i].cred !in LeasesOf(kept).Values
  {
    var last := |kept| - 1;
    var front := kept[..last];
    if j < last {
      Overwritten(front, i, j);
    } else {
      OnlyUnderOwnKey(front, i);
    }
    forall c | c in LeasesOf(kept) ensures LeasesOf(kept)[c] != kept[i].cred {
      assert c != KeyOf(kept[last]) ==> c in LeasesOf(front) && LeasesOf(kept)[c] == LeasesOf(front)[c];
    }
  }

  lemma OnlyUnderOwnKey(kept: seq<Node>, i: nat)
    requires forall i, j :: 0 <= i < j < |kept| ==> kept[i].cred != kept[j].cred
    requires i < |kept|
    ensures forall c :: c in LeasesOf(kept) && LeasesOf(kept)[c] == kept[i].cred ==> c == KeyOf(kept[i])
  {
    LeasesCome(kept);
    forall c | c in LeasesOf(kept) && LeasesOf(kept)[c] == kept[i].cred ensures c == KeyOf(kept[i]) {
      var n :| n in kept && KeyOf(n) == c && n.cred == LeasesOf(kept)[c];
      var k :| 0 <= k < |kept| && kept[k] == n;
      assert k == i;
    }
  }

  // ---- runs ----

  datatype Op = Configure(creds: seq<Credential>) | Acquire(c: string, now: int) | Release(c: string)
              | Restore(nodes: seq<Node>, at: int)

  ghost predicate Step(b: Book, op: Op, q: Book) {
    match op
    case Configure(creds) => Configured(b, creds, q)
    case Acquire(c, now) => q == Acquired(b, c, now)
    case Release(c) => q == Released(b, c)
    case Restore(nodes, now) => Restored(b, nodes, now, q)
  }

  ghost predicate Run(states: seq<Book>, ops: seq<Op>) {
    |states| == |ops| + 1 && forall k :: 0 <= k < |ops| ==> Step(states[k], ops[k], states[k + 1])
  }

  /** The last operation that rebuilt the queue, if any, lost no credential:
      a configure, or a restore of containers with keys of their own. */
  ghost predicate LastRebuildClean(states: seq<Book>, ops: seq<Op>, n: nat)
    requires Run(states, ops) && n <= |ops|
  {
    n == 0
    || (ops[n - 1].Configure?)
    || (ops[n - 1].Restore? && DistinctKeys(Accepted(states[n - 1].byId, ops[n - 1].nodes)))
    || ((ops[n - 1].Acquire? || ops[n - 1].Release?) && LastRebuildClean(states, ops, n - 1))
  }

  /** Over every run: no credential is ever leased twice or leased while queued,
      and all are accounted for exactly when the last rebuild was clean. */
  lemma {:induction false} PartitionExactlyWhen(states: seq<Book>, ops: seq<Op>, n: nat)
    requires Run(states, ops) && Partition(states[0]) && n <= |ops|
    ensures Safe(states[n])
    ensures Partition(states[n]) <==> LastRebuildClean(states, ops, n)
  {
    hide Safe, Covered, Configured, Restored, Accepted, Acquired, Released, DistinctKeys;
    if n > 0 {
      PartitionExactlyWhen(states, ops, n - 1);
      var b, q := states[n - 1], states[n];
      assert Step(b, ops[n - 1], states[n - 1 + 1]);
      match ops[n - 1]
      case Configure(creds) => ConfiguredIsPartition(b, creds, q);
      case Acquire(c, now) => AcquireKeeps(b, c, now);
      case Release(c) => ReleaseKeeps(b, c);
      case Restore(nodes, now) => RestoreKeeps(b, nodes, now, q);
    }
  }

  /** The partition, said by counting: each credential is queued or held exactly
      once in all, and nothing else is. */
  lemma PartitionCounts(b: Book)
    requires Partition(b)
    ensures forall id :: id in b.byId ==> multiset(b.available)[id] + |Holders(b, id)| == 1
    ensures |b.available| + |b.leases| == |b.byId|
  {
    hide Safe, Covered, Holders;
    forall id | id in b.byId ensures multiset(b.available)[id] + |Holders(b, id)| == 1 {
      PlaceOf(b, id);
    }
    SizesAddUp(b);
  }

  lemma PlaceOf(b: Book, id: string)
    requires Partition(b) && id in b.byId
    ensures multiset(b.available)[id] + |Holders(b, id)| == 1
  {
    if id in b.leases.Values {
      var c :| c in b.leases && b.leases[c] == id;
      assert Holders(b, id) == {c};
      assert id !in multiset(b.available);
    } else {
      assert Holders(b, id) == {};
      DistinctOnce(b.available, id);
    }
  }

  lemma SizesAddUp(b: Book)
    requires Partition(b)
    ensures |b.available| + |b.leases| == |b.byId|
  {
    hide Safe, Covered;
    SafeParts(b);
    DistinctSize(b.available);
    ValuesSize(b.leases, b.leases.Keys);
    var queued, held := set id | id in b.available, set c | c in b.leases.Keys :: b.leases[c];
    assert held == b.leases.Values;
    assert b.byId.Keys == queued + b.leases.Values && queued !! b.leases.Values;
  }

  lemma SafeParts(b: Book)
    requires Partition(b)
    ensures Distinct(b.available)
    ensures forall c, d :: c in b.leases && d in b.leases && b.leases[c] == b.leases[d] ==> c == d
    ensures var queued := set id | id in b.available;
      b.byId.Keys == queued + b.leases.Values && queued !! b.leases.Values
  {
  }

  lemma {:induction false} DistinctOnce(s: seq<string>, x: string)
    requires Distinct(s) && x in s
    ensures multiset(s)[x] == 1
  {
    var k :| 0 <= k < |s| && s[k] == x;
    assert s == s[..k] + [x] + s[k + 1..];
    assert multiset(s) == multiset(s[..k]) + multiset{x} + multiset(s[k + 1..]);
    assert x !in s[..k] && x !in s[k + 1..];
    assert x !in multiset(s[..k]) && x !in multiset(s[k + 1..]);
  }

  lemma {:induction false} DistinctSize(s: seq<string>)
    requires Distinct(s)
    ensures |set x | x in s| == |s|
  {
    if s != [] {
      DistinctSize(s[1..]);
      assert (set x | x in s) == {s[0]} + set x | x in s[1..];
    }
  }

  lemma {:induction false} ValuesSize(m: map<string, string>, keys: set<string>)
    requires keys <= m.Keys && forall c, d :: c in m && d in m && m[c] == m[d] ==> c == d
    ensures |set c | c in keys :: m[c]| == |keys|
  {
    if keys != {} {
      var k :| k in keys;
      ValuesSize(m, keys - {k});
      var others := set c | c in keys - {k} :: m[c];
      assert m[k] !in others;
      assert (set c | c in keys :: m[c]) == others + {m[k]};
    }
  }

  // ---- first in, first out ----

  /** The credentials a step hands out and takes back. */
  function HandedOut(b: Book, op: Op): seq<string> {
    if op.Acquire? && op.c !in b.leases && b.available != [] then [b.available[0]] else []
  }

  function TakenBack(b: Book, op: Op): seq<string> {
    if op.Release? && op.c in b.leases && b.leases[op.c] in b.byId then [b.leases[op.c]] else []
  }

  function AllHandedOut(states: seq<Book>, ops: seq<Op>, n: nat): seq<string>
    requires n <= |ops| <= |states|
  {
    if n == 0 then [] else AllHandedOut(states, ops, n - 1) + HandedOut(states[n - 1], ops[n - 1])
  }

  function AllTakenBack(states: seq<Book>, ops: seq<Op>, n: nat): seq<string>
    requires n <= |ops| <= |states|
  {
    if n == 0 then [] else AllTakenBack(states, ops, n - 1) + TakenBack(states[n - 1], ops[n - 1])
  }

  /** Between rebuilds credentials are handed out in the order they were queued:
      what was handed out, followed by the queue, is the first queue followed
      by what came back. */
  lemma {:induction false} QueueIsFifo(states: seq<Book>, ops: seq<Op>, n: nat)
    requires Run(states, ops) && n <= |ops|
    requires forall k :: 0 <= k < n ==> ops[k].Acquire? || ops[k].Release?
    ensures AllHandedOut(states, ops, n) + states[n].available == states[0].available + AllTakenBack(states, ops, n)
  {
    hide HandedOut, TakenBack, Acquired, Released;
    if n > 0 {
      QueueIsFifo(states, ops, n - 1);
      var b, op, q := states[n - 1], ops[n - 1], states[n];
      assert Step(b, op, states[n - 1 + 1]);
      QueueStep(b, op, q);
      Weave(AllHandedOut(states, ops, n - 1), HandedOut(b, op), b.available, q.available, states[0].available,
            AllTakenBack(states, ops, n - 1), TakenBack(b, op));
    }
  }

  lemma QueueStep(b: Book, op: Op, q: Book)
    requires Step(b, op, q) && (op.Acquire? || op.Release?)
    ensures HandedOut(b, op) + q.available == b.available + TakenBack(b, op)
  {
  }

  lemma Weave(out: seq<string>, more: seq<string>, mid: seq<string>, end: seq<string>, start: seq<string>,
              back: seq<string>, more': seq<string>)
    requires out + mid == start + back && more + end == mid + more'
    ensures (out + more) + end == start + (back + more')
  {
    assert (out + more) + end == out + (more + end);
    assert out + (mid + more') == (out + mid) + more';
  }
}
