/** The wake-up channel of the ring buffer: waiters capture the channel and then
    look at the head; writers store, then swap the channel, then close the old
    one. Every step below is one critical section or one channel operation. Waiters
    that look first and capture afterwards are there to show why they must not. */
module Notify {
  type Channel = nat

  /** A writer (or Stop): idle, stored but not swapped, or holding the swapped-out channel. */
  datatype Writer = Idle | Stored | Swapped(held: Channel)

  /** A waiter for chunks after an index: idle, channel captured, or blocked on it;
      or, in the wrong order, found nothing to read and without a channel yet. */
  datatype Waiter = Away | Captured(after: int, ch: Channel) | Blocked(after: int, ch: Channel) | Peeked(after: int)

  datatype State = State(
    head: int,
    notify: Channel,
    closed: set<Channel>,
    writers: seq<Writer>,
    waiters: seq<Waiter>)

  datatype Event =
    | Store(w: nat, chunks: nat)
    | Swap(w: nat)
    | Close(w: nat)
    | Capture(r: nat, after: int)
    | Check(r: nat)
    | Wake(r: nat)
    | Peek(r: nat, after: int)
    | CaptureLate(r: nat)

  /** Capture, then check, as the buffer does; or check first. */
  predicate InOrder(checkFirst: bool, e: Event) {
    if checkFirst then !e.Capture? && !e.Check? else !e.Peek? && !e.CaptureLate?
  }

  predicate Enabled(s: State, e: Event) {
    match e
    case Store(w, n) => w < |s.writers| && s.writers[w].Idle?
    case Swap(w) => w < |s.writers| && s.writers[w].Stored?
    case Close(w) => w < |s.writers| && s.writers[w].Swapped?
    case Capture(r, after) => r < |s.waiters| && s.waiters[r].Away?
    case Check(r) => r < |s.waiters| && s.waiters[r].Captured?
    case Wake(r) => r < |s.waiters| && s.waiters[r].Blocked? && s.waiters[r].ch in s.closed
    case Peek(r, after) => r < |s.waiters| && s.waiters[r].Away?
    case CaptureLate(r) => r < |s.waiters| && s.waiters[r].Peeked?
  }

  function Next(s: State, e: Event): State
    requires Enabled(s, e)
  {
    match e
    case Store(w, n) => s.(head := s.head + n, writers := s.writers[w := Stored])
    case Swap(w) => s.(notify := s.notify + 1, writers := s.writers[w := Swapped(s.notify)])
    case Close(w) => s.(closed := s.closed + {s.writers[w].held}, writers := s.writers[w := Idle])
    case Capture(r, after) => s.(waiters := s.waiters[r := Captured(after, s.notify)])
    case Check(r) =>
      var after := s.waiters[r].after;
      s.(waiters := s.waiters[r :=
        if s.head - 1 > after then Away else Blocked(after, s.waiters[r].ch)])
    case Wake(r) => s.(waiters := s.waiters[r := Away])
    case Peek(r, after) => if s.head - 1 > after then s else s.(waiters := s.waiters[r := Peeked(after)])
    case CaptureLate(r) => s.(waiters := s.waiters[r := Blocked(s.waiters[r].after, s.notify)])
  }

  function Initial(writers: nat, waiters: nat): State {
    State(0, 0, {}, seq(writers, _ => Idle), seq(waiters, _ => Away))
  }

  ghost predicate Behavior(checkFirst: bool, trace: seq<State>, writers: nat, waiters: nat) {
    |trace| > 0 && trace[0] == Initial(writers, waiters)
    && forall i :: 0 <= i < |trace| - 1 ==> Follows(checkFirst, trace[i], trace[i + 1])
  }

  ghost predicate Follows(checkFirst: bool, s: State, s': State) {
    exists e :: Enabled(s, e) && InOrder(checkFirst, e) && s' == Next(s, e)
  }

  // ---- the invariant ----

  ghost predicate SomeStored(s: State) {
    exists w :: 0 <= w < |s.writers| && s.writers[w].Stored?
  }

  ghost predicate SomeHolds(s: State, ch: Channel) {
    exists w :: 0 <= w < |s.writers| && s.writers[w] == Swapped(ch)
  }

  /** The channel of a waiter is the current one, about to be closed, or closed. */
  ghost predicate Accounted(s: State, ch: Channel) {
    ch <= s.notify && (ch < s.notify ==> ch in s.closed || SomeHolds(s, ch))
  }

  ghost predicate WaiterOk(s: State, r: Waiter) {
    match r
    case Away => true
    case Peeked(_) => false
    case Captured(after, ch) => Accounted(s, ch)
    case Blocked(after, ch) =>
      Accounted(s, ch) && (ch == s.notify && s.head - 1 > after ==> SomeStored(s))
  }

  ghost predicate Inv(s: State) {
    forall r :: 0 <= r < |s.waiters| ==> WaiterOk(s, s.waiters[r])
  }

  lemma HolderKept(s: State, e: Event, ch: Channel)
    requires Enabled(s, e) && Accounted(s, ch)
    ensures Accounted(Next(s, e), ch)
  {
    var s' := Next(s, e);
    if ch < s.notify && ch !in s.closed {
      var w :| 0 <= w < |s.writers| && s.writers[w] == Swapped(ch);
      if e != Close(w) {
        assert s'.writers[w] == Swapped(ch);
      }
    } else if e.Swap? && ch == s.notify {
      assert s'.writers[e.w] == Swapped(ch);
    }
  }

  lemma StoredKept(s: State, e: Event)
    requires Enabled(s, e) && SomeStored(s) && !e.Swap?
    ensures SomeStored(Next(s, e))
  {
    var w :| 0 <= w < |s.writers| && s.writers[w].Stored?;
    assert Next(s, e).writers[w].Stored?;
  }

  lemma WaiterKept(s: State, e: Event, r: nat)
    requires Enabled(s, e) && InOrder(false, e) && Inv(s) && r < |s.waiters|
    ensures WaiterOk(Next(s, e), Next(s, e).waiters[r])
  {
    var s' := Next(s, e);
    assert WaiterOk(s, s.waiters[r]);
    if s.waiters[r].Away? {
    } else {
      HolderKept(s, e, s.waiters[r].ch);
      if s.waiters[r].Blocked? && s'.waiters[r].Blocked? {
        if e.Store? {
          assert s'.writers[e.w].Stored?;
        } else if !e.Swap? && SomeStored(s) {
          StoredKept(s, e);
        }
      }
    }
  }

  lemma StepKeepsInv(s: State, e: Event)
    requires Enabled(s, e) && InOrder(false, e) && Inv(s)
    ensures Inv(Next(s, e))
  {
    forall r | 0 <= r < |s.waiters| ensures WaiterOk(Next(s, e), Next(s, e).waiters[r]) {
      WaiterKept(s, e, r);
    }
  }

  lemma {:induction false} InvAlways(trace: seq<State>, writers: nat, waiters: nat, i: nat)
    requires Behavior(false, trace, writers, waiters) && i < |trace|
    ensures Inv(trace[i])
  {
    if i > 0 {
      InvAlways(trace, writers, waiters, i - 1);
      assert Follows(false, trace[i - 1], trace[i - 1 + 1]);
      var e :| Enabled(trace[i - 1], e) && InOrder(false, e) && trace[i] == Next(trace[i - 1], e);
      StepKeepsInv(trace[i - 1], e);
    }
  }

  ghost predicate MidBroadcast(s: State) {
    exists w :: 0 <= w < |s.writers| && !s.writers[w].Idle?
  }

  /** Unless a writer is mid-broadcast, every waiter blocked on a channel that is
      still open has no unread chunk. */
  ghost predicate NobodyMissed(s: State) {
    !MidBroadcast(s) ==>
      forall r :: 0 <= r < |s.waiters| && s.waiters[r].Blocked? && s.waiters[r].ch !in s.closed ==>
        s.head - 1 <= s.waiters[r].after
  }

  /** No lost wake-up, in every interleaving of any number of writers and waiters. */
  lemma NoLostWakeup(trace: seq<State>, writers: nat, waiters: nat, i: nat)
    requires Behavior(false, trace, writers, waiters) && i < |trace|
    ensures NobodyMissed(trace[i])
  {
    hide Behavior;
    InvAlways(trace, writers, waiters, i);
    InvMissesNobody(trace[i]);
  }

  lemma InvMissesNobody(s: State)
    requires Inv(s)
    ensures NobodyMissed(s)
  {
  }

  // ---- the wrong order ----

  /** Waiters that check before they capture lose wake-ups, however many they and
      the writers are: a store, with its whole broadcast, slips in between. */
  lemma CheckFirstLoses(writers: nat, waiters: nat) returns (trace: seq<State>)
    requires writers > 0 && waiters > 0
    ensures Behavior(true, trace, writers, waiters) && !NobodyMissed(trace[|trace| - 1])
  {
    hide Behavior;
    InitialBehavior(writers, waiters);
    trace := [Initial(writers, waiters)];
    trace := Extended(trace, writers, waiters, Peek(0, -1));
    assert trace[1].waiters[0] == Peeked(-1);
    trace := Extended(trace, writers, waiters, Store(0, 1));
    trace := Extended(trace, writers, waiters, Swap(0));
    trace := Extended(trace, writers, waiters, Close(0));
    trace := Extended(trace, writers, waiters, CaptureLate(0));
    var s := trace[5];
    assert s.waiters[0] == Blocked(-1, 1) && s.closed == {0} && s.head == 1;
    assert !MidBroadcast(s);
  }

  lemma InitialBehavior(writers: nat, waiters: nat)
    ensures Behavior(true, [Initial(writers, waiters)], writers, waiters)
  {
  }

  lemma Extended(trace: seq<State>, writers: nat, waiters: nat, e: Event) returns (longer: seq<State>)
    requires |trace| > 0 && Behavior(true, trace, writers, waiters)
    requires Enabled(trace[|trace| - 1], e) && InOrder(true, e)
    ensures Behavior(true, longer, writers, waiters)
    ensures |longer| == |trace| + 1 && longer[|trace|] == Next(trace[|trace| - 1], e)
  {
    longer := trace + [Next(trace[|trace| - 1], e)];
    forall i | 0 <= i < |longer| - 1 ensures Follows(true, longer[i], longer[i + 1]) {
      if i < |trace| - 1 {
        assert Follows(true, trace[i], trace[i + 1]);
      }
    }
  }

  /** Such a waiter stays blocked, whatever happens, until something more is stored. */
  lemma MissedStaysStuck(s: State, e: Event, r: nat)
    requires r < |s.waiters| && s.waiters[r].Blocked? && s.waiters[r].ch !in s.closed && !MidBroadcast(s)
    requires Enabled(s, e) && !e.Store?
    ensures Next(s, e).waiters[r] == s.waiters[r] && Next(s, e).closed == s.closed && !MidBroadcast(Next(s, e))
  {
  }
}
