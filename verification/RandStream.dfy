/**
  SIMDRandStreamContext of src/mathlib/randsse.cpp: a 55-slot ring with two wrapping pointers, four
  lanes at a time, over the reals; Exact says why float arithmetic gives the same values.
 */
module RandStream {
  datatype Lanes = Lanes(x: real, y: real, z: real, w: real)

  const SLOTS := 55

  // (a + b) mod 1 the way AddSIMD, CmpGeSIMD, AndSIMD and SubSIMD compute it
  function AddMod1(a: real, b: real): real {
    var sum := a + b;
    if sum >= 1.0 then sum - 1.0 else sum
  }

  function AddLanes(a: Lanes, b: Lanes): Lanes {
    Lanes(AddMod1(a.x, b.x), AddMod1(a.y, b.y), AddMod1(a.z, b.z), AddMod1(a.w, b.w))
  }

  // x(n) = (x(n - 24) + x(n - 55)) mod 1, the sequence so far being h, oldest first.
  function NextValue(h: seq<Lanes>): Lanes
    requires |h| >= SLOTS
  {
    AddLanes(h[|h| - SLOTS], h[|h| - 24])
  }

  // The unbounded recurrence: 55 initial values and n more.
  function Sequence(initial: seq<Lanes>, n: nat): (h: seq<Lanes>)
    requires |initial| == SLOTS
    ensures |h| == SLOTS + n
  {
    if n == 0 then initial
    else
      var h := Sequence(initial, n - 1);
      h + [NextValue(h)]
  }

  function Fixed16(k: int): real {
    k as real / 65536.0
  }

  // Multiples of 2^-16 in [0, 1)
  ghost predicate OnGrid(x: real) {
    0.0 <= x < 1.0 && exists k: int :: x == Fixed16(k)
  }

  // A multiple of 2^-16 below 2^8: it fits the 24-bit significand of a float.
  ghost predicate Exact(x: real) {
    -256.0 < x < 256.0 && exists k: int :: x == Fixed16(k)
  }

  ghost predicate LanesOnGrid(v: Lanes) {
    OnGrid(v.x) && OnGrid(v.y) && OnGrid(v.z) && OnGrid(v.w)
  }

  // The sum, the comparison's operand and the reduced sum are all exact, and the grid is kept.
  lemma AddMod1OnGrid(a: real, b: real)
    requires OnGrid(a) && OnGrid(b)
    ensures Exact(a + b) && Exact(a + b - 1.0) && OnGrid(AddMod1(a, b))
    ensures AddMod1(a, b) == a + b || AddMod1(a, b) == a + b - 1.0
  {
    var j: int :| a == Fixed16(j);
    var k: int :| b == Fixed16(k);
    assert a + b == Fixed16(j + k);
    assert a + b - 1.0 == Fixed16(j + k - 65536);
  }

  lemma AddLanesOnGrid(a: Lanes, b: Lanes)
    requires LanesOnGrid(a) && LanesOnGrid(b)
    ensures LanesOnGrid(AddLanes(a, b))
  {
    AddMod1OnGrid(a.x, b.x);
    AddMod1OnGrid(a.y, b.y);
    AddMod1OnGrid(a.z, b.z);
    AddMod1OnGrid(a.w, b.w);
  }

  lemma {:induction false} SequenceOnGrid(initial: seq<Lanes>, n: nat)
    requires |initial| == SLOTS && forall i | 0 <= i < SLOTS :: LanesOnGrid(initial[i])
    ensures forall i | 0 <= i < SLOTS + n :: LanesOnGrid(Sequence(initial, n)[i])
  {
    if n > 0 {
      SequenceOnGrid(initial, n - 1);
      var h := Sequence(initial, n - 1);
      AddLanesOnGrid(h[|h| - SLOTS], h[|h| - 24]);
      hide AddLanes, LanesOnGrid;
    }
  }

  lemma SequenceStep(initial: seq<Lanes>, n: nat)
    requires |initial| == SLOTS
    ensures var h := Sequence(initial, n);
            Sequence(initial, n + 1) == h + [AddLanes(h[n], h[n + SLOTS - 24])]
  {
    hide AddLanes;
  }

  // One lane of it: x(n) is what is left of x(n - 24) + x(n - 55) once a whole one is taken away.
  function Scalar(initial: seq<real>, n: nat): (h: seq<real>)
    requires |initial| == 55
    ensures |h| == 55 + n
  {
    if n == 0 then initial
    else
      var h := Scalar(initial, n - 1);
      var sum := h[n + 30] + h[n - 1];
      h + [if sum < 1.0 then sum else sum - 1.0]
  }

  function Lane(v: Lanes, k: int): real {
    if k == 0 then v.x else if k == 1 then v.y else if k == 2 then v.z else v.w
  }

  function Column(h: seq<Lanes>, k: int): (c: seq<real>)
    ensures |c| == |h|
  {
    seq(|h|, i requires 0 <= i < |h| => Lane(h[i], k))
  }

  // Lanes never mix: each of the four runs through its own sequence.
  lemma {:induction false} LanesAreApart(initial: seq<Lanes>, n: nat, k: int)
    requires |initial| == 55
    ensures Column(Sequence(initial, n), k) == Scalar(Column(initial, k), n)
  {
    if n > 0 {
      LanesAreApart(initial, n - 1, k);
      var h := Sequence(initial, n - 1);
      assert Column(h + [NextValue(h)], k) == Column(h, k) + [Lane(NextValue(h), k)];
      assert Column(h, k)[n + 30] == Lane(h[n + 30], k) && Column(h, k)[n - 1] == Lane(h[n - 1], k);
    }
  }

  // Where value i of the sequence (oldest first) is kept in the ring.
  function Slot(i: nat): nat {
    (54 - i) % SLOTS
  }

  lemma SlotStep(i: nat)
    ensures Slot(i) < SLOTS && Slot(i + SLOTS) == Slot(i)
    ensures Slot(i + 1) == if Slot(i) == 0 then 54 else Slot(i) - 1
  {
  }

  lemma SlotsDiffer(n: nat, i: nat)
    requires n < i < n + SLOTS
    ensures Slot(i) != Slot(n)
  {
  }

  // (seed + 1) * 3141592621 in 32 bits
  function NextSeed(seed: nat): (r: nat)
    ensures r < 0x1_0000_0000
  {
    (seed + 1) * 3141592621 % 0x1_0000_0000
  }

  // The seed before: no two seeds have the same next one.
  function PreviousSeed(next: nat): nat {
    (next * 1769888165 + 0xFFFF_FFFF) % 0x1_0000_0000
  }

  lemma NextSeedInverts(seed: nat)
    requires seed < 0x1_0000_0000
    ensures PreviousSeed(NextSeed(seed)) == seed
  {
    var k := (seed + 1) * 3141592621 / 0x1_0000_0000;
    var q := (seed + 1) * 1294600684 - k * 1769888165 + 1;
    assert NextSeed(seed) * 1769888165 + 0xFFFF_FFFF == seed + q * 0x1_0000_0000;
    ModPlus(seed, q);
  }

  lemma ModPlus(x: nat, q: int)
    requires x < 0x1_0000_0000
    ensures (x + q * 0x1_0000_0000) % 0x1_0000_0000 == x
  {
  }

  // A value is the upper half of its seed, as a fraction.
  lemma SeedValueIs(upper: nat, lower: nat)
    requires lower < 65536
    ensures SeedValue(upper * 65536 + lower) == upper as real / 65536.0
  {
  }

  function SeedAt(seed: nat, n: nat): nat {
    if n == 0 then seed else NextSeed(SeedAt(seed, n - 1))
  }

  function SeedValue(seed: nat): real {
    Fixed16(seed / 65536)
  }

  lemma SeedOnGrid(seed: nat)
    requires seed < 0x1_0000_0000
    ensures OnGrid(SeedValue(seed))
  {
    assert 0 <= seed / 65536 < 65536;
  }

  class SIMDRandStreamContext {
    const randY: array<Lanes>
    var randJ: nat
    var randK: nat

    // The initial values, oldest first, and how many values were drawn.
    ghost var initial: seq<Lanes>
    ghost var drawn: nat

    // The ring holds the last 55 values of the unbounded sequence; K is at the oldest, J at x(n - 24).
    ghost predicate Valid()
      reads this, randY
    {
      && randY.Length == SLOTS
      && |initial| == SLOTS && (forall i | 0 <= i < SLOTS :: LanesOnGrid(initial[i]))
      && randK == Slot(drawn) && randJ == Slot(drawn + SLOTS - 24)
      && forall i: nat | drawn <= i < drawn + SLOTS :: randY[Slot(i)] == Sequence(initial, drawn)[i]
    }

    constructor ()
      ensures randY.Length == SLOTS && fresh(randY)
    {
      randY := new Lanes[SLOTS](_ => Lanes(0.0, 0.0, 0.0, 0.0));
      randJ, randK := 0, 0;
    }

    method Seed(seed: nat)
      requires seed < 0x1_0000_0000 && randY.Length == SLOTS
      modifies this, randY
      ensures Valid() && drawn == 0
      ensures forall i | 0 <= i < 55 :: initial[54 - i] == randY[i]
      ensures forall i | 0 <= i < 55 ::
                randY[i] == Lanes(SeedValue(SeedAt(seed, 4 * i)), SeedValue(SeedAt(seed, 4 * i + 1)),
                                  SeedValue(SeedAt(seed, 4 * i + 2)), SeedValue(SeedAt(seed, 4 * i + 3)))
    {
      randJ := 23;
      randK := 54;
      FillRing(randY, seed);
      assert Slot(0) == 54 && Slot(SLOTS - 24) == 23;
      hide LanesOnGrid, SeededLanes, SeedAt;
      initial := seq(SLOTS, i requires 0 <= i < SLOTS reads randY => randY[54 - i]);
      drawn := 0;
      forall i: nat | i < SLOTS
        ensures randY[i] == Lanes(SeedValue(SeedAt(seed, 4 * i)), SeedValue(SeedAt(seed, 4 * i + 1)),
                                  SeedValue(SeedAt(seed, 4 * i + 2)), SeedValue(SeedAt(seed, 4 * i + 3)))
      {
        LanesInOrder(seed, 4 * i);
      }
      forall i: nat | i < SLOTS
        ensures Slot(i) == 54 - i && LanesOnGrid(initial[i]) && randY[Slot(i)] == Sequence(initial, 0)[i]
      {
      }
    }

    // ret = rand[K] + rand[J], reduced; it replaces rand[K], and both pointers step back.
    method RandSIMD() returns (ret: Lanes)
      requires Valid()
      modifies this, randY
      ensures Valid() && initial == old(initial) && drawn == old(drawn) + 1
      ensures ret == Sequence(initial, drawn)[SLOTS + old(drawn)]
      ensures LanesOnGrid(ret)
    {
      ghost var n := drawn;
      ghost var h := Sequence(initial, n);
      SlotStep(n);
      SlotStep(n + SLOTS - 24);
      SequenceOnGrid(initial, n + 1);
      SequenceStep(initial, n);
      assert randY[randK] == h[n] && randY[randJ] == h[n + SLOTS - 24];
      hide LanesOnGrid, AddLanes, Slot, Sequence;
      ret := AddLanes(randY[randK], randY[randJ]);
      randY[randK] := ret;
      randJ := if randJ == 0 then 54 else randJ - 1;
      randK := if randK == 0 then 54 else randK - 1;
      drawn := drawn + 1;
      forall i: nat | n + 1 <= i < n + 1 + SLOTS
        ensures randY[Slot(i)] == Sequence(initial, n + 1)[i]
      {
        SlotStep(i);
        if i < n + SLOTS {
          SlotsDiffer(n, i);
        }
      }
    }
  }

  // The nested loops of Seed
  method FillRing(randY: array<Lanes>, seed: nat)
    requires seed < 0x1_0000_0000 && randY.Length == SLOTS
    modifies randY
    ensures forall j | 0 <= j < SLOTS :: LanesOnGrid(randY[j]) && randY[j] == SeededLanes(SeedAt(seed, 4 * j))
  {
    var s := seed;
    assert SeedAt(seed, 0) == seed;
    hide LanesOnGrid, SeededLanes, SeedAt;
    for i := 0 to SLOTS
      invariant s == SeedAt(seed, 4 * i) && s < 0x1_0000_0000
      invariant forall j | 0 <= j < i :: LanesOnGrid(randY[j]) && randY[j] == SeededLanes(SeedAt(seed, 4 * j))
    {
      SeedAtAdds(seed, 4 * i, 4);
      var lanes;
      lanes, s := SeedLanes(s);
      randY[i] := lanes;
    }
  }

  // The four values drawn for one slot
  function SeededLanes(seed: nat): Lanes {
    Lanes(SeedValue(seed), SeedValue(SeedAt(seed, 1)), SeedValue(SeedAt(seed, 2)), SeedValue(SeedAt(seed, 3)))
  }

  lemma LanesInOrder(seed: nat, n: nat)
    ensures SeededLanes(SeedAt(seed, n)) ==
            Lanes(SeedValue(SeedAt(seed, n)), SeedValue(SeedAt(seed, n + 1)), SeedValue(SeedAt(seed, n + 2)),
                  SeedValue(SeedAt(seed, n + 3)))
  {
    SeedAtAdds(seed, n, 1);
    SeedAtAdds(seed, n, 2);
    SeedAtAdds(seed, n, 3);
  }

  method SeedLanes(seed: nat) returns (lanes: Lanes, s: nat)
    requires seed < 0x1_0000_0000
    ensures LanesOnGrid(lanes) && s < 0x1_0000_0000
    ensures lanes == SeededLanes(seed) && s == SeedAt(seed, 4)
  {
    var s1 := NextSeed(seed);
    var s2 := NextSeed(s1);
    var s3 := NextSeed(s2);
    SeedOnGrid(seed);
    SeedOnGrid(s1);
    SeedOnGrid(s2);
    SeedOnGrid(s3);
    hide OnGrid, NextSeed, SeedValue;
    lanes := Lanes(SeedValue(seed), SeedValue(s1), SeedValue(s2), SeedValue(s3));
    SeedIterates(seed);
    s := SeedAt(seed, 4);
  }

  lemma SeedIterates(seed: nat)
    ensures SeedAt(seed, 1) == NextSeed(seed)
    ensures SeedAt(seed, 2) == NextSeed(SeedAt(seed, 1))
    ensures SeedAt(seed, 3) == NextSeed(SeedAt(seed, 2))
    ensures SeedAt(seed, 4) == NextSeed(SeedAt(seed, 3)) < 0x1_0000_0000
  {
    hide NextSeed;
  }

  lemma {:induction false} SeedAtAdds(seed: nat, m: nat, n: nat)
    ensures SeedAt(SeedAt(seed, m), n) == SeedAt(seed, m + n)
  {
    if n > 0 {
      SeedAtAdds(seed, m, n - 1);
    }
  }
}
