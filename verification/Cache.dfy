/** The byte-bounded cache of segments (proxy/hls/cache.go). */
module Cache {
  import opened Common

  // ---- the cache as a value: its items, most recently used first ----

  datatype Item = Item(key: string, data: seq<Byte>, expires: int)

  function Total(v: seq<Item>): nat {
    if v == [] then 0 else Total(v[..|v| - 1]) + |v[|v| - 1].data|
  }

  ghost predicate DistinctKeys(v: seq<Item>) {
    forall i, j :: 0 <= i < j < |v| ==> v[i].key != v[j].key
  }

  function Without(v: seq<Item>, key: string): seq<Item> {
    if v == [] then [] else (if v[0].key == key then [] else [v[0]]) + Without(v[1..], key)
  }

  function Unexpired(v: seq<Item>, now: int): seq<Item> {
    if v == [] then [] else (if now > v[0].expires then [] else [v[0]]) + Unexpired(v[1..], now)
  }

  function Find(v: seq<Item>, key: string): Option<Item> {
    if v == [] then None else if v[0].key == key then Some(v[0]) else Find(v[1..], key)
  }

  /** Drops the oldest until the rest fits; a limit that is not positive is none. */
  function Trim(v: seq<Item>, max: int): seq<Item> {
    if max > 0 && Total(v) > max then Trim(v[..|v| - 1], max) else v
  }

  datatype Op = Get(key: string, now: int) | Set(key: string, data: seq<Byte>, ttl: int, now: int) | Sweep(now: int)

  /** What a lookup finds; an expired item is not found. */
  function Lookup(v: seq<Item>, key: string, now: int): Option<seq<Byte>> {
    match Find(v, key)
    case Some(it) => if now > it.expires then None else Some(it.data)
    case None => None
  }

  /** The items a set has in hand before it makes room. */
  function Placed(v: seq<Item>, it: Item): seq<Item> {
    [it] + Without(v, it.key)
  }

  function Next(v: seq<Item>, max: int, op: Op): seq<Item> {
    match op
    case Get(key, now) =>
      (match Find(v, key)
       case Some(it) => if now > it.expires then Without(v, key) else Placed(v, it)
       case None => v)
    case Set(key, data, ttl, now) => Trim(Placed(v, Item(key, data, now + ttl)), max)
    case Sweep(now) => Unexpired(v, now)
  }

  // ---- lemmas on sequences ----

  lemma {:induction false} TotalAppend(a: seq<Item>, b: seq<Item>)
    ensures Total(a + b) == Total(a) + Total(b)
  {
    if b == [] {
      assert a + b == a;
    } else {
      var n := |b| - 1;
      assert (a + b)[..|a + b| - 1] == a + b[..n];
      TotalAppend(a, b[..n]);
    }
  }

  lemma TotalCut(v: seq<Item>, i: nat)
    requires i < |v|
    ensures Total(v) == Total(v[..i] + v[i + 1..]) + |v[i].data|
  {
    assert v == (v[..i] + [v[i]]) + v[i + 1..];
    TotalAppend(v[..i] + [v[i]], v[i + 1..]);
    TotalAppend(v[..i], v[i + 1..]);
    assert (v[..i] + [v[i]])[..i] == v[..i];
  }

  lemma {:induction false} WithoutOther(v: seq<Item>, key: string)
    requires forall i :: 0 <= i < |v| ==> v[i].key != key
    ensures Without(v, key) == v
  {
    if v != [] {
      WithoutOther(v[1..], key);
    }
  }

  lemma {:induction false} WithoutAt(v: seq<Item>, i: nat)
    requires DistinctKeys(v) && i < |v|
    ensures Without(v, v[i].key) == v[..i] + v[i + 1..]
    ensures Find(v, v[i].key) == Some(v[i])
  {
    if i == 0 {
      WithoutOther(v[1..], v[0].key);
    } else {
      WithoutAt(v[1..], i - 1);
      assert v[1..][..i - 1] == v[1..i] && v[1..][i..] == v[i + 1..];
    }
  }

  lemma {:induction false} FindNone(v: seq<Item>, key: string)
    ensures Find(v, key) == None <==> forall i :: 0 <= i < |v| ==> v[i].key != key
    ensures Find(v, key).Some? ==> Find(v, key).value in v && Find(v, key).value.key == key
  {
    if v != [] {
      FindNone(v[1..], key);
    }
  }

  // ---- the cache ----

  class CacheEntry {
    const key: string
    var data: seq<Byte>
    var expires: int

    constructor (key: string, data: seq<Byte>, expires: int)
      ensures this.key == key && this.data == data && this.expires == expires
    {
      this.key, this.data, this.expires := key, data, expires;
    }
  }

  ghost function ViewOf(es: seq<CacheEntry>): (v: seq<Item>)
    reads es
    ensures |v| == |es| && forall i :: 0 <= i < |es| ==> v[i] == Item(es[i].key, es[i].data, es[i].expires)
  {
    if es == [] then [] else [Item(es[0].key, es[0].data, es[0].expires)] + ViewOf(es[1..])
  }

  class GlobalCache {
    const maxBytes: int
    var totalBytes: int
    var entries: map<string, CacheEntry>
    var evictList: seq<CacheEntry>

    /** The map and the list hold the same entries, under distinct keys, and the
        byte total is theirs. */
    ghost predicate Valid()
      reads this, evictList
    {
      && Linked(entries, evictList)
      && totalBytes == Total(View())
    }

    ghost function View(): seq<Item>
      reads this, evictList
    {
      ViewOf(evictList)
    }

    constructor (maxBytes: int)
      ensures Valid() && View() == [] && this.maxBytes == maxBytes
    {
      this.maxBytes := maxBytes;
      totalBytes, entries, evictList := 0, map[], [];
    }

    /** The data under a key, if there is any and it has not expired. */
    method Get(key: string, now: int) returns (found: Option<seq<Byte>>)
      requires Valid()
      modifies this`totalBytes, this`entries, this`evictList
      ensures Valid() && (forall e :: e in evictList ==> e in old(evictList))
      ensures View() == Next(old(View()), maxBytes, Op.Get(key, now))
      ensures found == Lookup(old(View()), key, now)
      ensures key in entries <==> found.Some?
      ensures forall k :: k != key ==> (k in entries <==> k in old(entries))
    {
      hide Linked, Without, Find, Total, ViewOf;
      ghost var v := View();
      if key !in entries {
        NotLinked(entries, evictList, key);
        return None;
      }
      LinkedEntry(entries, evictList, key);
      var entry := entries[key];
      var i := Position(entry);
      ViewKeys(entries, evictList);
      WithoutAt(v, i);
      assert v[i] == Item(key, entry.data, entry.expires);
      if now > entry.expires {
        RemoveElement(i);
        return None;
      }
      MoveToFront(i);
      return Some(entry.data);
    }

    /** Stores data under a key, then drops the oldest items until the limit is met. */
    method Set(key: string, data: seq<Byte>, ttl: int, now: int)
      requires Valid()
      modifies this`totalBytes, this`entries, this`evictList, evictList
      ensures Valid() && (forall e :: e in evictList ==> e in old(evictList) || fresh(e))
      ensures View() == Next(old(View()), maxBytes, Op.Set(key, data, ttl, now))
    {
      hide Trim, Without, Linked, ViewOf, Total, Find, Placed;
      ghost var p := Placed(View(), Item(key, data, now + ttl));
      if key in entries {
        UpdateEntry(key, data, now + ttl);
      } else {
        AddEntry(key, data, now + ttl);
      }
      while maxBytes > 0 && totalBytes > maxBytes && |evictList| > 0
        invariant Valid() && (forall e :: e in evictList ==> e in old(evictList) || fresh(e))
        invariant Trim(View(), maxBytes) == Trim(p, maxBytes)
        decreases |evictList|
      {
        TrimStep(View(), maxBytes);
        RemoveOldest();
      }
      TrimDone(View(), maxBytes);
    }

    /** Replaces the data of an entry and makes it the most recent. */
    method UpdateEntry(key: string, data: seq<Byte>, expires: int)
      requires Valid() && key in entries
      modifies this`totalBytes, this`evictList, evictList
      ensures Valid() && (forall e :: e in evictList ==> e in old(evictList))
      ensures View() == Placed(old(View()), Item(key, data, expires))
    {
      hide Without, Total, Linked, ViewOf;
      ghost var v := View();
      LinkedEntry(entries, evictList, key);
      var entry := entries[key];
      var i := Position(entry);
      ViewKeys(entries, evictList);
      WithoutAt(v, i);
      MoveToFront(i);
      ghost var w := View();
      FrontAlone(entries, evictList);
      totalBytes := totalBytes - |entry.data|;
      entry.data := data;
      entry.expires := expires;
      totalBytes := totalBytes + |data|;
      assert View()[1..] == w[1..];
      HeadTotal(w);
      HeadTotal(View());
    }

    method AddEntry(key: string, data: seq<Byte>, expires: int)
      requires Valid() && key !in entries
      modifies this`totalBytes, this`entries, this`evictList
      ensures Valid() && (forall e :: e in evictList ==> e in old(evictList) || fresh(e))
      ensures View() == Placed(old(View()), Item(key, data, expires))
    {
      hide Total, Linked, ViewOf, Without;
      ghost var v := View();
      NotLinked(entries, evictList, key);
      var entry := new CacheEntry(key, data, expires);
      assert View() == v;
      LinkAdd(entries, evictList, entry);
      evictList := [entry] + evictList;
      entries := entries[key := entry];
      totalBytes := totalBytes + |data|;
      assert View() == [Item(key, data, expires)] + v;
      HeadTotal(View());
      assert View()[1..] == v;
    }

    /** Where an entry stands in the list: the source's list element. */
    method Position(e: CacheEntry) returns (i: nat)
      requires e in evictList
      ensures i < |evictList| && evictList[i] == e
    {
      i :| 0 <= i < |evictList| && evictList[i] == e;
    }

    method MoveToFront(i: nat)
      requires Valid() && i < |evictList|
      modifies this`evictList
      ensures Valid() && (forall e :: e in evictList <==> e in old(evictList))
      ensures evictList == [old(evictList)[i]] + (old(evictList)[..i] + old(evictList)[i + 1..])
      ensures View() == [old(View())[i]] + (old(View())[..i] + old(View())[i + 1..])
    {
      hide Total, Linked, ViewOf;
      ghost var v := View();
      TotalCut(v, i);
      LinkMove(entries, evictList, i);
      evictList := [evictList[i]] + (evictList[..i] + evictList[i + 1..]);
      assert View() == [v[i]] + (v[..i] + v[i + 1..]);
      HeadTotal(View());
      assert View()[1..] == v[..i] + v[i + 1..];
    }

    method RemoveElement(i: nat)
      requires Valid() && i < |evictList|
      modifies this`totalBytes, this`entries, this`evictList
      ensures Valid() && (forall e :: e in evictList ==> e in old(evictList))
      ensures evictList == old(evictList)[..i] + old(evictList)[i + 1..]
      ensures View() == old(View())[..i] + old(View())[i + 1..]
      ensures entries == old(entries) - {old(evictList)[i].key}
    {
      hide Total, Linked, ViewOf;
      ghost var v := View();
      TotalCut(v, i);
      LinkCut(entries, evictList, i);
      var entry := evictList[i];
      evictList := evictList[..i] + evictList[i + 1..];
      entries := entries - {entry.key};
      totalBytes := totalBytes - |entry.data|;
      assert View() == v[..i] + v[i + 1..];
    }

    method RemoveOldest()
      requires Valid() && |evictList| > 0
      modifies this`totalBytes, this`entries, this`evictList
      ensures Valid() && (forall e :: e in evictList ==> e in old(evictList))
      ensures View() == old(View())[..|old(View())| - 1] && |evictList| == |old(evictList)| - 1
    {
      hide Total, Linked, ViewOf;
      RemoveElement(|evictList| - 1);
    }

    /** One tick of the collector: from the oldest to the newest, expired entries go. */
    method Sweep(now: int)
      requires Valid()
      modifies this`totalBytes, this`entries, this`evictList
      ensures Valid() && (forall e :: e in evictList ==> e in old(evictList))
      ensures View() == Next(old(View()), maxBytes, Op.Sweep(now))
    {
      hide Total, Linked, ViewOf, Unexpired;
      ghost var v := View();
      var i := |evictList|;
      NoneLeft(v, now);
      while i > 0
        invariant 0 <= i <= |evictList| && i <= |v|
        invariant Valid() && (forall e :: e in evictList ==> e in old(evictList))
        invariant View() == v[..i] + Unexpired(v[i..], now)
      {
        i := i - 1;
        SweepOne(v, i, now);
        assert View()[i] == v[i];
        if now > evictList[i].expires {
          RemoveElement(i);
        }
      }
    }
  }

  lemma NoneLeft(v: seq<Item>, now: int)
    ensures v == v[..|v|] + Unexpired(v[|v|..], now)
  {
  }

  /** The next item of a sweep, from the back. */
  lemma SweepOne(v: seq<Item>, i: nat, now: int)
    requires i < |v|
    ensures var w := v[..i + 1] + Unexpired(v[i + 1..], now);
      w[i] == v[i]
      && v[..i] + Unexpired(v[i..], now) == if now > v[i].expires then w[..i] + w[i + 1..] else w
  {
    assert v[i..][1..] == v[i + 1..];
    assert v[..i + 1] == v[..i] + [v[i]];
  }

  ghost predicate Linked(entries: map<string, CacheEntry>, list: seq<CacheEntry>) {
    && (forall i, j :: 0 <= i < j < |list| ==> list[i].key != list[j].key)
    && (forall e :: e in list ==> e.key in entries && entries[e.key] == e)
    && (forall k :: k in entries ==> entries[k] in list && entries[k].key == k)
  }

  lemma ViewKeys(entries: map<string, CacheEntry>, list: seq<CacheEntry>)
    requires Linked(entries, list)
    ensures DistinctKeys(ViewOf(list))
  {
    hide ViewOf;
  }

  lemma NotLinked(entries: map<string, CacheEntry>, list: seq<CacheEntry>, key: string)
    requires Linked(entries, list) && key !in entries
    ensures Find(ViewOf(list), key) == None && Without(ViewOf(list), key) == ViewOf(list)
  {
    FindNone(ViewOf(list), key);
    WithoutOther(ViewOf(list), key);
  }

  lemma LinkedEntry(entries: map<string, CacheEntry>, list: seq<CacheEntry>, key: string)
    requires Linked(entries, list) && key in entries
    ensures entries[key] in list && entries[key].key == key
  {
  }

  lemma FrontAlone(entries: map<string, CacheEntry>, list: seq<CacheEntry>)
    requires Linked(entries, list)
    ensures forall i :: 0 < i < |list| ==> list[i] != list[0]
  {
  }

  lemma LinkAdd(entries: map<string, CacheEntry>, list: seq<CacheEntry>, e: CacheEntry)
    requires Linked(entries, list) && e.key !in entries
    ensures Linked(entries[e.key := e], [e] + list)
  {
  }

  lemma LinkMove(entries: map<string, CacheEntry>, list: seq<CacheEntry>, i: nat)
    requires Linked(entries, list) && i < |list|
    ensures var l := [list[i]] + (list[..i] + list[i + 1..]);
      Linked(entries, l) && forall e :: e in l <==> e in list
  {
    assert list == list[..i] + [list[i]] + list[i + 1..];
  }

  lemma LinkCut(entries: map<string, CacheEntry>, list: seq<CacheEntry>, i: nat)
    requires Linked(entries, list) && i < |list|
    ensures var l := list[..i] + list[i + 1..];
      Linked(entries - {list[i].key}, l) && forall e :: e in l ==> e in list
  {
    assert list == list[..i] + [list[i]] + list[i + 1..];
  }

  lemma HeadTotal(v: seq<Item>)
    requires v != []
    ensures Total(v) == |v[0].data| + Total(v[1..])
  {
    TotalCut(v, 0);
    assert v[..0] + v[1..] == v[1..];
  }

  lemma TrimStep(v: seq<Item>, max: int)
    requires max > 0 && Total(v) > max
    ensures v != [] && Trim(v, max) == Trim(v[..|v| - 1], max)
  {
  }

  lemma TrimDone(v: seq<Item>, max: int)
    requires !(max > 0 && Total(v) > max && |v| > 0)
    ensures Trim(v, max) == v
  {
  }

  // ---- what is kept ----

  lemma {:induction false} TotalMonotone(v: seq<Item>, m: nat, n: nat)
    requires m <= n <= |v|
    ensures Total(v[..m]) <= Total(v[..n])
  {
    assert v[..n] == v[..m] + v[m..n];
    TotalAppend(v[..m], v[m..n]);
  }

  /** With a positive limit the items kept are the longest run of most recent
      ones that fits. */
  lemma {:induction false} TrimIsLongestFit(v: seq<Item>, max: int)
    requires max > 0
    ensures |Trim(v, max)| <= |v| && Trim(v, max) == v[..|Trim(v, max)|]
    ensures forall n :: 0 <= n <= |v| ==> (Total(v[..n]) <= max <==> n <= |Trim(v, max)|)
  {
    assert v[..|v|] == v;
    if Total(v) > max {
      var w := v[..|v| - 1];
      TrimIsLongestFit(w, max);
      forall n | 0 <= n <= |v| ensures Total(v[..n]) <= max <==> n <= |Trim(v, max)| {
        if n < |v| {
          assert w[..n] == v[..n];
        }
      }
      assert w[..|Trim(w, max)|] == v[..|Trim(w, max)|];
    } else {
      forall n | 0 <= n <= |v| ensures Total(v[..n]) <= max {
        TotalMonotone(v, n, |v|);
      }
    }
  }

  /** A set always stores its own item unless that alone exceeds the limit; then
      nothing at all is left in the cache. */
  lemma OversizedSetEmpties(v: seq<Item>, max: int, key: string, data: seq<Byte>, ttl: int, now: int)
    requires max > 0
    ensures var w := Next(v, max, Set(key, data, ttl, now));
      if |data| > max then w == [] else w != [] && w[0] == Item(key, data, now + ttl)
  {
    var p := Placed(v, Item(key, data, now + ttl));
    TrimIsLongestFit(p, max);
    assert p[..1] == [p[0]];
    assert p[..1][..0] == [];
    assert Total(p[..1]) == |data|;
    assert Total(p[..1]) <= max <==> 1 <= |Trim(p, max)|;
  }

  // ---- runs ----

  /** The items after a run of operations on a new cache. */
  function After(ops: seq<Op>, max: int): seq<Item> {
    if ops == [] then [] else Next(After(ops[..|ops| - 1], max), max, ops[|ops| - 1])
  }

  lemma {:induction false} WithoutMembers(v: seq<Item>, key: string)
    ensures forall it :: it in Without(v, key) <==> it in v && it.key != key
  {
    if v != [] {
      WithoutMembers(v[1..], key);
      assert v == [v[0]] + v[1..];
    }
  }

  lemma {:induction false} UnexpiredMembers(v: seq<Item>, now: int)
    ensures forall it :: it in Unexpired(v, now) <==> it in v && now <= it.expires
  {
    if v != [] {
      UnexpiredMembers(v[1..], now);
      assert v == [v[0]] + v[1..];
    }
  }

  // -- recency --

  /** An operation uses a key: it sets it, or finds it. */
  predicate Uses(v: seq<Item>, op: Op, key: string) {
    match op
    case Set(k, _, _, _) => k == key
    case Get(k, now) => k == key && Lookup(v, key, now).Some?
    case Sweep(_) => false
  }

  /** The number of the last operation, from 1, that used a key; 0 if none did. */
  function LastUse(ops: seq<Op>, max: int, key: string): nat {
    if ops == [] then 0
    else
      var n := |ops| - 1;
      if Uses(After(ops[..n], max), ops[n], key) then n + 1 else LastUse(ops[..n], max, key)
  }

  /** Ordered by a rank, strictly downwards. */
  ghost predicate Descending(v: seq<Item>, rank: string -> nat) {
    forall i, j :: 0 <= i < j < |v| ==> rank(v[i].key) > rank(v[j].key)
  }

  lemma {:induction false} WithoutDescends(v: seq<Item>, key: string, rank: string -> nat)
    requires Descending(v, rank)
    ensures Descending(Without(v, key), rank)
  {
    if v != [] {
      WithoutDescends(v[1..], key, rank);
      WithoutMembers(v[1..], key);
    }
  }

  lemma {:induction false} UnexpiredDescends(v: seq<Item>, now: int, rank: string -> nat)
    requires Descending(v, rank)
    ensures Descending(Unexpired(v, now), rank)
  {
    if v != [] {
      UnexpiredDescends(v[1..], now, rank);
      UnexpiredMembers(v[1..], now);
    }
  }

  lemma {:induction false} TrimPrefix(v: seq<Item>, max: int)
    ensures |Trim(v, max)| <= |v| && Trim(v, max) == v[..|Trim(v, max)|]
  {
    if max > 0 && Total(v) > max {
      TrimPrefix(v[..|v| - 1], max);
    }
  }

  /** Putting one item in front under a rank above all the others'. */
  lemma PlacedDescends(v: seq<Item>, it: Item, old_rank: string -> nat, rank: string -> nat)
    requires Descending(v, old_rank)
    requires forall k :: k != it.key ==> rank(k) == old_rank(k)
    requires forall k :: k != it.key ==> rank(it.key) > rank(k)
    ensures Descending(Placed(v, it), rank)
  {
    WithoutDescends(v, it.key, old_rank);
    WithoutMembers(v, it.key);
    var w := Without(v, it.key);
    forall j | 0 <= j < |w| ensures w[j].key != it.key {
      assert w[j] in w;
    }
  }

  lemma {:induction false} LastUseBound(ops: seq<Op>, max: int, key: string)
    ensures LastUse(ops, max, key) <= |ops|
  {
    if ops != [] {
      LastUseBound(ops[..|ops| - 1], max, key);
    }
  }

  /** In every run the items stand in the order in which they were last used. */
  lemma {:induction false} OrderedByUse(ops: seq<Op>, max: int)
    ensures Descending(After(ops, max), k => LastUse(ops, max, k))
  {
    hide Next, Uses;
    if ops != [] {
      var n := |ops| - 1;
      OrderedByUse(ops[..n], max);
      forall k ensures LastUse(ops[..n], max, k) <= n {
        LastUseBound(ops[..n], max, k);
      }
      StepDescends(After(ops[..n], max), max, ops[n], k => LastUse(ops[..n], max, k), k => LastUse(ops, max, k), n);
    }
  }

  lemma StepDescends(v: seq<Item>, max: int, op: Op, before: string -> nat, rank: string -> nat, n: nat)
    requires Descending(v, before)
    requires forall k :: before(k) <= n && rank(k) == if Uses(v, op, k) then n + 1 else before(k)
    ensures Descending(Next(v, max, op), rank)
  {
    hide Trim, Without, Unexpired, Find;
    match op
    case Get(key, now) =>
      FindNone(v, key);
      if Lookup(v, key, now).Some? {
        PlacedDescends(v, Find(v, key).value, before, rank);
      } else {
        WithoutDescends(v, key, before);
      }
    case Set(key, data, ttl, now) =>
      var it := Item(key, data, now + ttl);
      PlacedDescends(v, it, before, rank);
      TrimPrefix(Placed(v, it), max);
    case Sweep(now) =>
      UnexpiredDescends(v, now, before);
  }

  /** In every run each key is there once, and with a positive limit the bytes
      stay within it. */
  lemma {:induction false} AlwaysWithinLimit(ops: seq<Op>, max: int)
    ensures DistinctKeys(After(ops, max))
    ensures max > 0 ==> Total(After(ops, max)) <= max
  {
    OrderedByUse(ops, max);
    if ops != [] {
      AlwaysWithinLimit(ops[..|ops| - 1], max);
      if max > 0 {
        TotalStep(After(ops[..|ops| - 1], max), max, ops[|ops| - 1]);
      }
    }
  }

  lemma TotalStep(v: seq<Item>, max: int, op: Op)
    requires max > 0 && Total(v) <= max && DistinctKeys(v)
    ensures Total(Next(v, max, op)) <= max
  {
    match op
    case Get(key, now) =>
      FindNone(v, key);
      if Find(v, key).Some? {
        var i :| 0 <= i < |v| && v[i] == Find(v, key).value;
        WithoutAt(v, i);
        TotalCut(v, i);
        HeadTotal(Placed(v, v[i]));
      }
    case Set(key, data, ttl, now) =>
      var p := Placed(v, Item(key, data, now + ttl));
      TrimIsLongestFit(p, max);
      assert Total(p[..|Trim(p, max)|]) <= max;
    case Sweep(now) =>
      UnexpiredTotal(v, now);
  }

  lemma {:induction false} UnexpiredTotal(v: seq<Item>, now: int)
    ensures Total(Unexpired(v, now)) <= Total(v)
  {
    if v != [] {
      UnexpiredTotal(v[1..], now);
      HeadTotal(v);
      if now <= v[0].expires {
        assert Unexpired(v, now)[1..] == Unexpired(v[1..], now);
        HeadTotal(Unexpired(v, now));
      } else {
        assert Unexpired(v, now) == Unexpired(v[1..], now);
      }
    }
  }

  // -- what a lookup returns --

  /** The item of the last set of a key, and the number of that operation. */
  function LastSet(ops: seq<Op>, key: string): Option<(nat, Item)> {
    if ops == [] then None
    else
      var n := |ops| - 1;
      match ops[n]
      case Set(k, data, ttl, now) => if k == key then Some((n, Item(key, data, now + ttl))) else LastSet(ops[..n], key)
      case Get(_, _) => LastSet(ops[..n], key)
      case Sweep(_) => LastSet(ops[..n], key)
  }

  /** An operation throws an item out: it found the item expired, or the item and
      what is more recent no longer fit together. */
  ghost predicate ThrowsOut(v: seq<Item>, max: int, op: Op, it: Item) {
    match op
    case Get(k, now) => it in v && k == it.key && now > it.expires
    case Sweep(now) => it in v && now > it.expires
    case Set(k, data, ttl, now) =>
      var p := Placed(v, Item(k, data, now + ttl));
      max > 0 && exists i :: 0 <= i < |p| && p[i] == it && Total(p[..i + 1]) > max
  }

  /** One operation, on an item it does not set itself. */
  lemma StaysUnlessThrown(v: seq<Item>, max: int, op: Op, it: Item)
    requires DistinctKeys(v) && !(op.Set? && op.key == it.key)
    ensures it in Next(v, max, op) <==> it in v && !ThrowsOut(v, max, op, it)
  {
    hide Without, Unexpired, Trim, Find, Total;
    match op
    case Get(k, now) =>
      FindNone(v, k);
      WithoutMembers(v, k);
      if it in v && it.key == k {
        var i :| 0 <= i < |v| && v[i] == it;
        WithoutAt(v, i);
      }
    case Sweep(now) => UnexpiredMembers(v, now);
    case Set(k, data, ttl, now) =>
      var p := Placed(v, Item(k, data, now + ttl));
      WithoutMembers(v, k);
      PlacedDistinct(v, Item(k, data, now + ttl));
      TrimKeeps(p, max, it);
      assert it in p <==> it in v && it.key != k;
  }

  lemma {:induction false} PlacedDistinct(v: seq<Item>, it: Item)
    requires DistinctKeys(v)
    ensures DistinctKeys(Placed(v, it))
  {
    hide Without;
    if i: nat :| i < |v| && v[i].key == it.key {
      WithoutAt(v, i);
    } else {
      WithoutOther(v, it.key);
    }
  }

  lemma TrimKeeps(p: seq<Item>, max: int, it: Item)
    requires DistinctKeys(p)
    ensures it in Trim(p, max) <==> it in p && !(max > 0 && exists i :: 0 <= i < |p| && p[i] == it && Total(p[..i + 1]) > max)
  {
    if max > 0 {
      TrimIsLongestFit(p, max);
      var n := |Trim(p, max)|;
      if it in p {
        var k :| 0 <= k < |p| && p[k] == it;
        assert forall i :: 0 <= i < |p| && p[i] == it ==> i == k;
        assert Total(p[..k + 1]) <= max <==> k + 1 <= n;
        if k < n {
          assert Trim(p, max)[k] == it;
        }
      }
    }
  }

  lemma FindMember(v: seq<Item>, key: string)
    requires DistinctKeys(v)
    ensures forall it :: Find(v, key) == Some(it) <==> it in v && it.key == key
  {
    FindNone(v, key);
  }

  /** A key that an operation does not set. */
  lemma FindStep(v: seq<Item>, max: int, op: Op, key: string)
    requires DistinctKeys(v) && DistinctKeys(Next(v, max, op)) && !(op.Set? && op.key == key)
    ensures Find(v, key) == None ==> Find(Next(v, max, op), key) == None
    ensures forall it :: Find(v, key) == Some(it) ==>
      Find(Next(v, max, op), key) == if ThrowsOut(v, max, op, it) then None else Some(it)
  {
    hide Next, ThrowsOut, Find;
    var w := Next(v, max, op);
    FindMember(v, key);
    FindMember(w, key);
    forall it: Item | it.key == key ensures it in w <==> it in v && !ThrowsOut(v, max, op, it) {
      StaysUnlessThrown(v, max, op, it);
    }
    if Find(w, key).Some? {
      assert Find(w, key).value in w;
    }
  }

  /** The key that an operation sets. */
  lemma FindAfterSet(v: seq<Item>, max: int, op: Op)
    requires op.Set? && DistinctKeys(v) && DistinctKeys(Next(v, max, op))
    ensures var it := Item(op.key, op.data, op.now + op.ttl);
      Find(Next(v, max, op), op.key) == if ThrowsOut(v, max, op, it) then None else Some(it)
  {
    hide Find, Without, Trim, Total;
    var it := Item(op.key, op.data, op.now + op.ttl);
    var p, w := Placed(v, it), Next(v, max, op);
    PlacedDistinct(v, it);
    TrimKeeps(p, max, it);
    FindMember(w, op.key);
    TrimPrefix(p, max);
    if Find(w, op.key).Some? {
      var x := Find(w, op.key).value;
      assert x in p && x == it;
    }
  }

  /** No operation from the n-th on has thrown the item out. */
  ghost predicate NeverThrownOut(ops: seq<Op>, max: int, n: nat, it: Item) {
    forall k :: n <= k < |ops| ==> !ThrowsOut(After(ops[..k], max), max, ops[k], it)
  }

  lemma NeverThrownStep(ops: seq<Op>, max: int, n: nat, it: Item)
    requires n < |ops|
    ensures var last := |ops| - 1;
      NeverThrownOut(ops, max, n, it)
      <==> NeverThrownOut(ops[..last], max, n, it) && !ThrowsOut(After(ops[..last], max), max, ops[last], it)
  {
    hide ThrowsOut, After;
    var last := |ops| - 1;
    forall k | 0 <= k < last ensures ops[..last][..k] == ops[..k] && ops[..last][k] == ops[k] {
    }
  }

  /** What a run leaves under a key: the item last set, exactly when no operation
      since then, that set included, has thrown it out; otherwise nothing. */
  ghost predicate HoldsLastSet(ops: seq<Op>, max: int, key: string) {
    match LastSet(ops, key)
    case None => Find(After(ops, max), key) == None
    case Some((n, it)) =>
      n < |ops| && it.key == key
      && Find(After(ops, max), key) == if NeverThrownOut(ops, max, n, it) then Some(it) else None
  }

  lemma {:induction false} LastSetIsHeld(ops: seq<Op>, max: int, key: string)
    ensures HoldsLastSet(ops, max, key)
  {
    hide Next, ThrowsOut, Find, NeverThrownOut;
    if ops == [] {
      FindNone([], key);
    } else {
      var last := |ops| - 1;
      var v, op := After(ops[..last], max), ops[last];
      LastSetIsHeld(ops[..last], max, key);
      AlwaysWithinLimit(ops[..last], max);
      AlwaysWithinLimit(ops, max);
      if op.Set? && op.key == key {
        FindAfterSet(v, max, op);
        NeverThrownStep(ops, max, last, Item(key, op.data, op.now + op.ttl));
        NothingYet(ops[..last], max, last, Item(key, op.data, op.now + op.ttl));
      } else {
        FindStep(v, max, op, key);
        if LastSet(ops, key).Some? {
          var (n, it) := LastSet(ops, key).value;
          NeverThrownStep(ops, max, n, it);
        }
      }
    }
  }

  lemma NothingYet(ops: seq<Op>, max: int, n: nat, it: Item)
    requires n >= |ops|
    ensures NeverThrownOut(ops, max, n, it)
  {
  }

  /** A get returns the data last set under its key, exactly when no operation
      since then has thrown it out and it has not expired; else nothing. */
  lemma HitExactlyWhen(ops: seq<Op>, max: int, key: string, now: int)
    ensures var found := Lookup(After(ops, max), key, now);
      match LastSet(ops, key)
      case None => found == None
      case Some((n, it)) =>
        found == if NeverThrownOut(ops, max, n, it) && now <= it.expires then Some(it.data) else None
  {
    LastSetIsHeld(ops, max, key);
  }
}
