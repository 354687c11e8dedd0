/** The bit tricks of the ring: rounding a slot count up to a power of two,
    and using capacity - 1 as a mask in place of a remainder. */
module Bits {

  function Pow2(k: nat): (r: nat)
    ensures r >= 1
  {
    if k == 0 then 1 else 2 * Pow2(k - 1)
  }

  ghost predicate IsPow2(c: int) {
    exists k: nat :: Pow2(k) == c
  }

  function BitAnd(a: nat, b: nat): nat {
    if a == 0 || b == 0 then 0
    else 2 * BitAnd(a / 2, b / 2) + (if a % 2 == 1 && b % 2 == 1 then 1 else 0)
  }

  function BitOr(a: nat, b: nat): nat
    decreases a + b
  {
    if a == 0 && b == 0 then 0
    else 2 * BitOr(a / 2, b / 2) + (if a % 2 == 1 || b % 2 == 1 then 1 else 0)
  }

  /** Shift right by k bits. */
  function Shr(a: nat, k: nat): nat
    decreases k
  {
    if k == 0 then a else Shr(a / 2, k - 1)
  }

  /** k ones. */
  function Ones(k: nat): nat {
    Pow2(k) - 1
  }

  /** Bit i of x. */
  predicate Bit(x: nat, i: nat)
    decreases i
  {
    if i == 0 then x % 2 == 1 else Bit(x / 2, i - 1)
  }

  lemma {:induction false} Pow2Mono(a: nat, b: nat)
    ensures a <= b ==> Pow2(a) <= Pow2(b)
    ensures a < b ==> Pow2(a) < Pow2(b)
    decreases b
  {
    if a < b {
      Pow2Mono(a, b - 1);
    }
  }

  // ---- masks ----

  lemma {:induction false} MulMono(a: int, b: int, d: int)
    requires d > 0 && a < b
    ensures a * d + d <= b * d
    decreases b - a
  {
    assert (a + 1) * d == a * d + d;
    if a + 1 < b {
      MulMono(a + 1, b, d);
    }
  }

  /** Quotient and remainder are unique. */
  lemma QuotientUnique(a: int, r: int, b: int, s: int, d: int)
    requires a * d + r == b * d + s && 0 <= r < d && 0 <= s < d
    ensures a == b && r == s
  {
    if a < b {
      MulMono(a, b, d);
    } else if b < a {
      MulMono(b, a, d);
    }
  }

  lemma ModUnique(x: nat, d: nat, q: nat, r: nat)
    requires x == q * d + r && r < d
    ensures x % d == r
  {
    assert x / d * d + x % d == x;
    QuotientUnique(x / d, x % d, q, r, d);
  }

  lemma ModStep(x: nat, d: nat)
    requires d >= 1
    ensures x % (2 * d) == 2 * ((x / 2) % d) + x % 2
  {
    var h := x / 2;
    var q, r := h / d, h % d;
    assert h == q * d + r;
    assert q * (2 * d) == 2 * (q * d);
    ModUnique(x, 2 * d, q, 2 * r + x % 2);
  }

  /** With capacity 2^k, the mask keeps exactly the remainder. */
  lemma {:induction false} MaskIsModulo(x: nat, k: nat)
    ensures BitAnd(x, Pow2(k) - 1) == x % Pow2(k)
  {
    hide BitAnd;
    if k == 0 {
      ModOne(x);
    } else {
      MaskIsModulo(x / 2, k - 1);
      MaskStep(x, Pow2(k - 1), Pow2(k));
    }
  }

  lemma MaskStep(x: nat, d: nat, dd: nat)
    requires d >= 1 && dd == 2 * d && BitAnd(x / 2, d - 1) == (x / 2) % d
    ensures BitAnd(x, dd - 1) == x % dd
  {
    hide BitAnd;
    AndStep(x, d);
    ModStep(x, d);
  }

  lemma ModOne(x: nat)
    ensures x % 1 == 0 && BitAnd(x, 0) == 0
  {
  }

  lemma AndStep(x: nat, d: nat)
    requires d >= 1
    ensures BitAnd(x, 2 * d - 1) == 2 * BitAnd(x / 2, d - 1) + x % 2
  {
    assert (2 * d - 1) / 2 == d - 1;
    assert BitAnd(0, d - 1) == 0;
  }

  // ---- bits ----

  lemma {:induction false} BitOfZero(i: nat)
    ensures !Bit(0, i)
  {
    if i > 0 {
      BitOfZero(i - 1);
    }
  }

  lemma {:induction false} BitOfOr(a: nat, b: nat, i: nat)
    ensures Bit(BitOr(a, b), i) <==> Bit(a, i) || Bit(b, i)
    decreases i
  {
    if a == 0 && b == 0 {
      BitOfZero(i);
    } else {
      hide BitOr;
      OrParts(a, b);
      if i > 0 {
        BitOfOr(a / 2, b / 2, i - 1);
      }
    }
  }

  lemma OrParts(a: nat, b: nat)
    ensures BitOr(a, b) / 2 == BitOr(a / 2, b / 2)
    ensures BitOr(a, b) % 2 == 1 <==> a % 2 == 1 || b % 2 == 1
  {
  }

  lemma {:induction false} BitOfShr(x: nat, s: nat, i: nat)
    ensures Bit(Shr(x, s), i) <==> Bit(x, i + s)
    decreases s
  {
    if s > 0 {
      BitOfShr(x / 2, s - 1, i);
    }
  }

  lemma {:induction false} BitOfOnes(k: nat, i: nat)
    ensures Bit(Ones(k), i) <==> i < k
    decreases i
  {
    if k == 0 {
      BitOfZero(i);
    } else {
      assert Ones(k) == 2 * Ones(k - 1) + 1;
      if i > 0 {
        BitOfOnes(k - 1, i - 1);
      }
    }
  }

  /** A number is its bits. */
  lemma {:induction false} SameBits(a: nat, b: nat)
    requires forall i: nat :: Bit(a, i) <==> Bit(b, i)
    ensures a == b
    decreases a + b
  {
    if a + b > 0 {
      forall i: nat ensures Bit(a / 2, i) <==> Bit(b / 2, i) {
        assert Bit(a, i + 1) <==> Bit(b, i + 1);
      }
      assert Bit(a, 0) <==> Bit(b, 0);
      SameBits(a / 2, b / 2);
    }
  }

  lemma {:induction false} BitBound(x: nat, i: nat)
    ensures Bit(x, i) ==> Pow2(i) <= x
    decreases i
  {
    if i > 0 {
      BitBound(x / 2, i - 1);
    }
  }

  lemma TopBit(m: nat) returns (k: nat)
    requires m >= 1
    ensures Pow2(k) <= m < Pow2(k + 1) && Bit(m, k)
  {
    if m == 1 {
      k := 0;
      assert Pow2(1) == 2;
    } else {
      var k' := TopBit(m / 2);
      k := k' + 1;
    }
  }

  // ---- nextPow2 ----

  /** minSafeSlots */
  const MIN_SAFE_SLOTS: nat := 4

  function Smear(m: nat): nat {
    var m1 := BitOr(m, Shr(m, 1));
    var m2 := BitOr(m1, Shr(m1, 2));
    var m3 := BitOr(m2, Shr(m2, 4));
    var m4 := BitOr(m3, Shr(m3, 8));
    BitOr(m4, Shr(m4, 16))
  }

  function NextPow2(n: nat): nat
    requires n >= 1
  {
    var r := Smear(n - 1) + 1;
    if r < MIN_SAFE_SLOTS then MIN_SAFE_SLOTS else r
  }

  /** Some of the w bits of m from bit i on is set. */
  ghost predicate Window(m: nat, i: nat, w: nat) {
    exists j: nat :: i <= j < i + w && Bit(m, j)
  }

  /** a has exactly the bits that m has in the w places from there on. */
  ghost predicate Smeared(m: nat, a: nat, w: nat) {
    forall i: nat :: Bit(a, i) <==> Window(m, i, w)
  }

  /** One smearing step doubles the reach. */
  lemma SmearStep(m: nat, a: nat, w: nat)
    requires Smeared(m, a, w)
    ensures Smeared(m, BitOr(a, Shr(a, w)), 2 * w)
  {
    forall i: nat ensures Bit(BitOr(a, Shr(a, w)), i) <==> Window(m, i, 2 * w) {
      BitOfOr(a, Shr(a, w), i);
      BitOfShr(a, w, i);
      WindowSplits(m, i, w);
      assert Bit(a, i) <==> Window(m, i, w);
      assert Bit(a, i + w) <==> Window(m, i + w, w);
    }
  }

  lemma WindowSplits(m: nat, i: nat, w: nat)
    ensures Window(m, i, 2 * w) <==> Window(m, i, w) || Window(m, i + w, w)
  {
    if Window(m, i, 2 * w) {
      var j: nat :| i <= j < i + 2 * w && Bit(m, j);
      assert if j < i + w then Window(m, i, w) else Window(m, i + w, w);
    }
    if Window(m, i, w) {
      var j: nat :| i <= j < i + w && Bit(m, j);
    }
    if Window(m, i + w, w) {
      var j: nat :| i + w <= j < i + w + w && Bit(m, j);
    }
  }

  lemma SmearReach(m: nat)
    ensures Smeared(m, Smear(m), 32)
  {
    hide BitOr, Shr, Smeared;
    SmearNothing(m);
    SmearStep(m, m, 1);
    var m1 := BitOr(m, Shr(m, 1));
    SmearStep(m, m1, 2);
    var m2 := BitOr(m1, Shr(m1, 2));
    SmearStep(m, m2, 4);
    var m3 := BitOr(m2, Shr(m2, 4));
    SmearStep(m, m3, 8);
    var m4 := BitOr(m3, Shr(m3, 8));
    SmearStep(m, m4, 16);
  }

  lemma SmearNothing(m: nat)
    ensures Smeared(m, m, 1)
  {
    forall i: nat ensures Bit(m, i) <==> Window(m, i, 1) {
      if Window(m, i, 1) {
        var j: nat :| i <= j < i + 1 && Bit(m, j);
      }
    }
  }

  /** Somewhere below a set bit, 32 bits in a row are zero. */
  ghost predicate Gap(m: nat) {
    exists i: nat, t: nat :: i + 32 <= t && Bit(m, t) && !Window(m, i, 32)
  }

  /** Without a gap the smearing fills every bit below the top one. */
  lemma SmearFills(m: nat, k: nat)
    requires Pow2(k) <= m < Pow2(k + 1) && Bit(m, k) && !Gap(m)
    ensures Smear(m) == Ones(k + 1)
  {
    hide Smear;
    SmearReach(m);
    forall i: nat ensures Bit(Smear(m), i) <==> Bit(Ones(k + 1), i) {
      assert Bit(Smear(m), i) <==> Window(m, i, 32);
      BitOfOnes(k + 1, i);
      if i > k {
        NothingAbove(m, k, i);
      } else if i + 32 > k {
        assert Bit(m, k);
      } else {
        assert i + 32 <= k && Bit(m, k);
      }
    }
    SameBits(Smear(m), Ones(k + 1));
  }

  lemma NothingAbove(m: nat, k: nat, i: nat)
    requires m < Pow2(k + 1) && i > k
    ensures !Window(m, i, 32)
  {
    if Window(m, i, 32) {
      var j: nat :| i <= j < i + 32 && Bit(m, j);
      BitBound(m, j);
      Pow2Mono(k + 1, j);
      assert false;
    }
  }

  /** The capacity chosen for a request of two slots or more. */
  lemma NextPow2Value(n: nat) returns (k: nat)
    requires n >= 2 && !Gap(n - 1)
    ensures Pow2(k) < n <= Pow2(k + 1)
    ensures NextPow2(n) == if Pow2(k + 1) < MIN_SAFE_SLOTS then MIN_SAFE_SLOTS else Pow2(k + 1)
  {
    k := TopBit(n - 1);
    SmearFills(n - 1, k);
  }

  /** r is the least power of two that is at least n and at least the safe minimum. */
  ghost predicate LeastFor(n: nat, r: nat) {
    IsPow2(r) && r >= n && r >= MIN_SAFE_SLOTS
    && forall c :: IsPow2(c) && c >= n && c >= MIN_SAFE_SLOTS ==> r <= c
  }

  lemma ValueIsLeast(n: nat, k: nat, r: nat)
    requires Pow2(k) < n <= Pow2(k + 1)
    requires r == if Pow2(k + 1) < MIN_SAFE_SLOTS then MIN_SAFE_SLOTS else Pow2(k + 1)
    ensures LeastFor(n, r)
  {
    assert Pow2(2) == MIN_SAFE_SLOTS;
    forall c | IsPow2(c) && c >= n && c >= MIN_SAFE_SLOTS ensures r <= c {
      var e: nat :| Pow2(e) == c;
      Pow2Mono(e, k);
      Pow2Mono(k + 1, e);
    }
  }

  /** With a gap what comes out is no power of two. */
  lemma GapFails(n: nat)
    requires n >= 1 && Gap(n - 1)
    ensures !IsPow2(NextPow2(n))
  {
    hide Smear;
    var m := n - 1;
    var i: nat, t: nat :| i + 32 <= t && Bit(m, t) && !Window(m, i, 32);
    SmearReach(m);
    assert Window(m, t, 32);
    assert Bit(Smear(m), t) && !Bit(Smear(m), i);
    BitBound(Smear(m), t);
    Pow2Mono(2, t);
    assert Pow2(2) == 4;
    if IsPow2(Smear(m) + 1) {
      var e: nat :| Pow2(e) == Smear(m) + 1;
      BitOfOnes(e, t);
      BitOfOnes(e, i);
      assert false;
    }
  }

  /** The result is the least power of two that is at least the request and the
      safe minimum, exactly when the request less one has no gap; otherwise it is
      no power of two at all. */
  lemma NextPow2ExactWhen(n: nat)
    requires n >= 1
    ensures LeastFor(n, NextPow2(n)) <==> !Gap(n - 1)
    ensures IsPow2(NextPow2(n)) <==> !Gap(n - 1)
  {
    hide Smear, IsPow2, Gap;
    if Gap(n - 1) {
      GapFails(n);
    } else if n > 1 {
      var k := NextPow2Value(n);
      ValueIsLeast(n, k, NextPow2(n));
    } else {
      NextPow2OfOne();
    }
  }

  lemma {:induction false} BitOfPow2(k: nat, i: nat)
    ensures Bit(Pow2(k), i) <==> i == k
    decreases k
  {
    if k == 0 {
      if i > 0 {
        BitOfZero(i - 1);
      }
    } else if i > 0 {
      BitOfPow2(k - 1, i - 1);
    }
  }

  /** The smallest request that fails, for k = 32, and others like it. */
  lemma FailsBeyondPow2(k: nat)
    requires k >= 32
    ensures !IsPow2(NextPow2(Pow2(k) + 1))
  {
    hide NextPow2, IsPow2, Pow2;
    var m := Pow2(k);
    forall i: nat ensures Bit(m, i) <==> i == k {
      BitOfPow2(k, i);
    }
    assert Bit(m, k) && !Window(m, k - 32, 32);
    GapFails(m + 1);
  }

  lemma NextPow2OfOne()
    ensures NextPow2(1) == MIN_SAFE_SLOTS && LeastFor(1, MIN_SAFE_SLOTS)
  {
    assert BitOr(0, 0) == 0;
    assert Pow2(2) == MIN_SAFE_SLOTS;
  }

  /** For every request up to 2^32 slots, the result is the least power of two
      that is at least the request and at least the safe minimum. */
  lemma NextPow2Least(n: nat)
    requires 1 <= n <= 0x1_0000_0000
    ensures !Gap(n - 1) && LeastFor(n, NextPow2(n))
  {
    hide Smear, NextPow2, LeastFor, IsPow2;
    if Gap(n - 1) {
      var i: nat, t: nat :| i + 32 <= t && Bit(n - 1, t) && !Window(n - 1, i, 32);
      BitBound(n - 1, t);
      Pow2Mono(32, t);
      Pow2Is32();
      assert false;
    }
    NextPow2ExactWhen(n);
  }

  lemma Pow2Is32()
    ensures Pow2(32) == 0x1_0000_0000
  {
    assert Pow2(4) == 16;
    assert Pow2(8) == 16 * Pow2(4);
    assert Pow2(12) == 16 * Pow2(8);
    assert Pow2(16) == 16 * Pow2(12);
    assert Pow2(20) == 16 * Pow2(16);
    assert Pow2(24) == 16 * Pow2(20);
    assert Pow2(28) == 16 * Pow2(24);
    assert Pow2(32) == 16 * Pow2(28);
  }
}
