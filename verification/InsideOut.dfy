/** InsideOut of src/mathlib/halton.cpp: the bit-reversed enumeration of [0, nTotal). */
module InsideOut {
  import opened Bytes

  newtype int32 = x: int | -0x8000_0000 <= x < 0x8000_0000

  const LARGEST_TOTAL: int32 := 0x4000_0000

  // The values below n that are b modulo k (a power of two), those with the next bit clear first.
  function Listing(n: nat, b: nat, k: nat): seq<nat>
    requires k > 0
    decreases n - k
  {
    if k >= n then (if b < n then [b] else [])
    else Listing(n, b, 2 * k) + Listing(n, b + k, 2 * k)
  }

  // How many of b, b + k, b + 2k, ... are below n.
  function Count(n: int, b: nat, k: nat): nat
    requires k > 0
    decreases n - b
  {
    if n <= b then 0 else 1 + Count(n - k, b, k)
  }

  lemma {:induction false} CountSplits(n: int, b: nat, k: nat)
    requires k > 0
    ensures Count(n, b, 2 * k) == (Count(n, b, k) + 1) / 2
    ensures Count(n, b + k, 2 * k) == Count(n, b, k) / 2
    decreases n - b
  {
    if n > b + k {
      CountSplits(n - 2 * k, b, k);
    }
  }

  lemma {:induction false} CountIsLength(n: nat, b: nat, k: nat)
    requires b < k
    ensures |Listing(n, b, k)| == Count(n, b, k)
    decreases n - k
  {
    if k < n {
      CountSplits(n, b, k);
      CountIsLength(n, b, 2 * k);
      CountIsLength(n, b + k, 2 * k);
    }
  }

  lemma {:induction false} CountAll(n: int)
    requires n >= 0
    ensures Count(n, 0, 1) == n
  {
    if n > 0 {
      CountAll(n - 1);
    }
  }

  // No operation overflows for totals up to 2^30.
  method InsideOut(nTotal: int32, nCounter: int32) returns (b: int32)
    requires 0 <= nCounter < nTotal <= LARGEST_TOTAL
    ensures |Listing(nTotal as nat, 0, 1)| == nTotal as nat
    ensures b as int == Listing(nTotal as nat, 0, 1)[nCounter]
  {
    b := 0;
    var counter := nCounter;
    var m, k: int32 := nTotal, 1;
    ghost var total: nat := nTotal as nat;
    CountAll(total);
    CountIsLength(total, 0, 1);
    while k < nTotal
      invariant 0 <= b < k && 0 <= counter < m <= nTotal
      invariant m as int == Count(total, b as nat, k as nat) == |Listing(total, b as nat, k as nat)|
      invariant Listing(total, b as nat, k as nat)[counter] == Listing(total, 0, 1)[nCounter]
      invariant k as int < 2 * total
      decreases nTotal - k
    {
      CountSplits(total, b as nat, k as nat);
      CountIsLength(total, b as nat, 2 * (k as nat));
      CountIsLength(total, b as nat + k as nat, 2 * (k as nat));
      if counter * 2 >= m {
        b := b + k;
        counter := counter - (m + 1) / 2;
        m := m / 2;
      } else {
        m := (m + 1) / 2;
      }
      k := k * 2;
    }
  }

  // The loop beyond its range: k <<= 1 on 32 bits drops what does not fit.

  function ShiftLeft(k: int32): int32 {
    var doubled := 2 * (k as int);
    (if doubled >= 0x8000_0000 then doubled - 0x1_0000_0000
     else if doubled < -0x8000_0000 then doubled + 0x1_0000_0000
     else doubled) as int32
  }

  // k after i rounds
  function KAt(i: nat): int32 {
    if i == 0 then 1 else ShiftLeft(KAt(i - 1))
  }

  lemma {:induction false} KIsPow2(i: nat)
    requires i <= 30
    ensures KAt(i) as int == Pow2(i)
  {
    if i > 0 {
      KIsPow2(i - 1);
      Pow2Monotone(i, 30);
      Pow2Of30();
    }
  }

  lemma Pow2Of30()
    ensures Pow2(30) == 0x4000_0000
  {
    assert Pow2(6) == 64;
    assert Pow2(12) == 4096;
    assert Pow2(18) == 0x4_0000;
    assert Pow2(24) == 0x100_0000;
  }

  lemma {:induction false} KNeverLarger(i: nat)
    ensures KAt(i) <= LARGEST_TOTAL
    ensures i == 31 ==> KAt(i) == -0x8000_0000
    ensures i > 31 ==> KAt(i) == 0
  {
    Pow2Of30();
    if i <= 30 {
      KIsPow2(i);
      Pow2Monotone(i, 30);
    } else {
      KNeverLarger(i - 1);
      KIsPow2(30);
    }
  }

  // The loop ends, k having passed nTotal, if and only if nTotal is at most 2^30.  Otherwise k becomes
  // 2^30, -2^31 and then 0 for ever.
  lemma LoopEndsIff(nTotal: int32)
    ensures (exists i: nat :: KAt(i) >= nTotal) <==> nTotal <= LARGEST_TOTAL
  {
    if nTotal <= LARGEST_TOTAL {
      KIsPow2(30);
      Pow2Of30();
      assert KAt(30) >= nTotal;
    } else {
      forall i: nat ensures KAt(i) < nTotal {
        KNeverLarger(i);
      }
    }
  }

  // Bits

  // The lowest `width` bits of x in reverse.
  function Reverse(x: nat, width: nat): nat {
    if width == 0 then 0 else x % 2 * Pow2(width - 1) + Reverse(x / 2, width - 1)
  }

  function Bit(x: nat, t: nat): nat {
    if t == 0 then x % 2 else Bit(x / 2, t - 1)
  }

  // x and y have the same lowest t bits.
  predicate Agree(x: nat, y: nat, t: nat) {
    t == 0 || (x % 2 == y % 2 && Agree(x / 2, y / 2, t - 1))
  }

  lemma {:induction false} ReverseBounded(x: nat, width: nat)
    ensures Reverse(x, width) < Pow2(width)
  {
    if width > 0 {
      ReverseBounded(x / 2, width - 1);
      assert Pow2(width) == 2 * Pow2(width - 1);
      BitTimes(x, Pow2(width - 1));
      hide Pow2;
    }
  }

  lemma BitTimes(x: nat, m: nat)
    ensures x % 2 * m == if x % 2 == 0 then 0 else m
  {
  }

  // Of two values that first differ in bit t, the one with that bit clear has the smaller reversal.
  lemma {:induction false} ReverseOrder(x: nat, y: nat, t: nat, width: nat)
    requires t < width && Agree(x, y, t) && Bit(x, t) == 0 && Bit(y, t) == 1
    ensures Reverse(x, width) < Reverse(y, width)
  {
    if t == 0 {
      ReverseBounded(x / 2, width - 1);
    } else {
      ReverseOrder(x / 2, y / 2, t - 1, width - 1);
    }
  }

  lemma {:induction false} AgreeExtends(x: nat, b: nat, t: nat)
    requires Agree(x, b, t) && b < Pow2(t)
    ensures Bit(x, t) == 0 || Bit(x, t) == 1
    ensures Bit(x, t) == 0 <==> Agree(x, b, t + 1)
    ensures Bit(x, t) == 1 <==> Agree(x, b + Pow2(t), t + 1)
  {
    if t > 0 {
      AgreeExtends(x / 2, b / 2, t - 1);
      assert (b + Pow2(t)) / 2 == b / 2 + Pow2(t - 1) && (b + Pow2(t)) % 2 == b % 2;
    } else {
      assert Agree(x, b, 1) <==> x % 2 == 0;
      assert Agree(x, b + 1, 1) <==> x % 2 == 1;
    }
  }

  lemma {:induction false} AgreeBothWays(x: nat, y: nat, b: nat, t: nat)
    requires Agree(x, b, t) && Agree(y, b, t)
    ensures Agree(x, y, t)
  {
    if t > 0 {
      AgreeBothWays(x / 2, y / 2, b / 2, t - 1);
    }
  }

  lemma {:induction false} AgreeSelf(x: nat, t: nat)
    ensures Agree(x, x, t)
  {
    if t > 0 {
      AgreeSelf(x / 2, t - 1);
    }
  }

  lemma {:induction false} AgreeBelow(x: nat, b: nat, t: nat)
    requires Agree(x, b, t) && x < Pow2(t) && b < Pow2(t)
    ensures x == b
  {
    if t > 0 {
      AgreeBelow(x / 2, b / 2, t - 1);
    }
  }

  // l holds exactly the values below n with the lowest t bits of b, in order of reversal.
  ghost predicate Members(l: seq<nat>, n: nat, b: nat, t: nat) {
    forall x: nat :: x in l <==> x < n && Agree(x, b, t)
  }

  ghost predicate Ordered(l: seq<nat>, width: nat) {
    forall i, j | 0 <= i < j < |l| :: Reverse(l[i], width) < Reverse(l[j], width)
  }

  lemma {:induction false} ListingOrdered(n: nat, b: nat, t: nat, width: nat)
    requires b < Pow2(t) && n <= Pow2(width)
    ensures Members(Listing(n, b, Pow2(t)), n, b, t) && Ordered(Listing(n, b, Pow2(t)), width)
    decreases n - Pow2(t)
  {
    var k := Pow2(t);
    var l := Listing(n, b, k);
    if k >= n {
      AgreeSelf(b, t);
      forall x: nat | x < n && Agree(x, b, t) ensures x == b {
        AgreeBelow(x, b, t);
      }
    } else {
      var even, odd := Listing(n, b, Pow2(t + 1)), Listing(n, b + k, Pow2(t + 1));
      assert l == even + odd;
      ListingOrdered(n, b, t + 1, width);
      ListingOrdered(n, b + k, t + 1, width);
      forall x: nat ensures x in l <==> x < n && Agree(x, b, t) {
        ClassSplits(x, b, t);
      }
      WidthExceeds(t, width, n);
      AppendOrdered(even, odd, n, b, t, width);
    }
  }

  lemma AppendOrdered(even: seq<nat>, odd: seq<nat>, n: nat, b: nat, t: nat, width: nat)
    requires b < Pow2(t) && t < width && Ordered(even, width) && Ordered(odd, width)
    requires Members(even, n, b, t + 1) && Members(odd, n, b + Pow2(t), t + 1)
    ensures Ordered(even + odd, width)
  {
    forall x, y | x in even && y in odd ensures Reverse(x, width) < Reverse(y, width) {
      ClassSplits(x, b, t);
      ClassSplits(y, b, t);
      AgreeExtends(x, b, t);
      AgreeExtends(y, b, t);
      AgreeBothWays(x, y, b, t);
      ReverseOrder(x, y, t, width);
    }
    var l := even + odd;
    forall i, j | 0 <= i < j < |l| ensures Reverse(l[i], width) < Reverse(l[j], width) {
      if i < |even| <= j {
        assert l[i] in even && l[j] in odd;
      }
    }
  }

  lemma {:induction false} ClassSplits(x: nat, b: nat, t: nat)
    requires b < Pow2(t)
    ensures Agree(x, b, t) <==> Agree(x, b, t + 1) || Agree(x, b + Pow2(t), t + 1)
  {
    if Agree(x, b, t) {
      AgreeExtends(x, b, t);
    }
    if Agree(x, b, t + 1) {
      AgreeShrinks(x, b, t);
    }
    if Agree(x, b + Pow2(t), t + 1) {
      AgreeShrinks(x, b + Pow2(t), t);
      AgreeDropsTop(b, t);
      AgreeBothWays(x, b, b + Pow2(t), t);
    }
  }

  lemma {:induction false} AgreeShrinks(x: nat, y: nat, t: nat)
    requires Agree(x, y, t + 1)
    ensures Agree(x, y, t)
  {
    if t > 0 {
      AgreeShrinks(x / 2, y / 2, t - 1);
    }
  }

  lemma {:induction false} AgreeDropsTop(b: nat, t: nat)
    ensures Agree(b, b + Pow2(t), t)
  {
    if t > 0 {
      AgreeDropsTop(b / 2, t - 1);
      assert (b + Pow2(t)) / 2 == b / 2 + Pow2(t - 1) && (b + Pow2(t)) % 2 == b % 2;
    }
  }

  lemma {:induction false} WidthExceeds(t: nat, width: nat, n: nat)
    requires Pow2(t) < n <= Pow2(width)
    ensures t < width
  {
    if width <= t {
      Pow2Monotone(width, t);
    }
  }

  lemma {:induction false} Pow2Monotone(s: nat, t: nat)
    requires s <= t
    ensures Pow2(s) <= Pow2(t)
    decreases t
  {
    if s < t {
      Pow2Monotone(s, t - 1);
    }
  }

  // The listing that InsideOut(nTotal, .) reads off visits every value of [0, nTotal) exactly once, in increasing
  // order of the value's bits reversed, for any width that holds them.
  lemma {:induction false} BitReversedBijection(nTotal: nat, width: nat)
    requires 0 < nTotal <= Pow2(width)
    ensures var l := Listing(nTotal, 0, 1);
            && |l| == nTotal
            && (forall c | 0 <= c < nTotal :: l[c] < nTotal)
            && (forall x: nat | x < nTotal :: x in l)
            && (forall c, d | 0 <= c < d < nTotal :: l[c] != l[d])
            && forall c, d | 0 <= c < d < nTotal :: Reverse(l[c], width) < Reverse(l[d], width)
  {
    CountAll(nTotal);
    CountIsLength(nTotal, 0, 1);
    ListingOrdered(nTotal, 0, 0, width);
    var l := Listing(nTotal, 0, Pow2(0));
    forall c | 0 <= c < nTotal ensures l[c] < nTotal {
      assert l[c] in l;
    }
    forall x: nat | x < nTotal ensures x in l {
      assert Agree(x, 0, 0);
    }
  }
}
