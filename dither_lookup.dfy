/** The stratified dither lookup table: binomial coefficients by Pascal's
    triangle, a popcount, and a table of all n-bit values grouped by popcount. */
module DitherLookup {
  import opened UInt32

  // ---------------------------------------------------------------------------
  // Specification functions
  // ---------------------------------------------------------------------------

  function Pow2(n: nat): (r: nat)
    ensures r >= 1
  {
    if n == 0 then 1 else 2 * Pow2(n - 1)
  }

  /** The binomial coefficient by Pascal's rule. Every row at or below 0 is
      row 0, which is what a Pascal row that is never advanced holds. */
  function Choose(n: int, k: nat): nat
    decreases n
  {
    if k == 0 then 1
    else if n <= 0 then 0
    else Choose(n - 1, k - 1) + Choose(n - 1, k)
  }

  /** The number of set bits of v. */
  function Pop(v: nat): nat
  {
    if v == 0 then 0 else v % 2 + Pop(v / 2)
  }

  /** Bitwise AND of two unsigned integers. */
  function BitAnd(a: nat, b: nat): nat
  {
    if a == 0 || b == 0 then 0 else 2 * BitAnd(a / 2, b / 2) + (if a % 2 == 1 && b % 2 == 1 then 1 else 0)
  }

  /** How many of the values 0 .. m-1 have popcount p. */
  function CountPop(m: nat, p: nat): nat
  {
    if m == 0 then 0 else CountPop(m - 1, p) + (if Pop(m - 1) == p then 1 else 0)
  }

  /** Sum of Choose(n, j) for j < p: the first table slot of popcount p. */
  function Offset(n: nat, p: nat): nat
  {
    if p == 0 then 0 else Offset(n, p - 1) + Choose(n, p - 1)
  }

  /** The slot the bucket fill gives to value v: the start of its popcount
      group plus the number of smaller values in that group. */
  function Pos(n: nat, v: nat): (s: nat)
    requires v < Pow2(n)
    ensures Offset(n, Pop(v)) <= s < Offset(n, Pop(v) + 1)
    ensures s < Pow2(n)
  {
    PopBound(n, v);
    CountPopWithin(n, v);
    OffsetMonotone(n, Pop(v) + 1, n + 1);
    OffsetTotal(n);
    Offset(n, Pop(v)) + CountPop(v, Pop(v))
  }

  /** The order the table is sorted in: popcount first, then value. */
  predicate KeyLess(u: nat, v: nat)
  {
    Pop(u) < Pop(v) || (Pop(u) == Pop(v) && u < v)
  }

  /** t holds every value 0 .. m-1 exactly once. */
  predicate IsPermutationOfRange(t: seq<int>, m: nat)
  {
    |t| == m &&
    (forall s :: 0 <= s < |t| ==> 0 <= t[s] < m) &&
    (forall s, s' :: 0 <= s < s' < |t| ==> t[s] != t[s'])
  }

  /** t is ordered by popcount, and by value within equal popcount. */
  predicate OrderedByPopThenValue(t: seq<int>)
  {
    forall s, s' :: 0 <= s < s' < |t| && t[s] >= 0 && t[s'] >= 0 ==> KeyLess(t[s], t[s'])
  }

  /** Each slot s lies in the group of its value's popcount: it is at least
      the group's first slot Offset(n, p) and below the next group's. */
  predicate InPopCountGroups(n: nat, t: seq<int>)
  {
    forall s :: 0 <= s < |t| && t[s] >= 0 ==> Offset(n, Pop(t[s])) <= s < Offset(n, Pop(t[s]) + 1)
  }

  // ---------------------------------------------------------------------------
  // Facts about the specification functions
  // ---------------------------------------------------------------------------

  lemma {:induction false} ChooseBeyondRow(n: int, k: nat)
    requires k > 0 && k > n
    ensures Choose(n, k) == 0
  {
    if n > 0 {
      ChooseBeyondRow(n - 1, k - 1);
      ChooseBeyondRow(n - 1, k);
    }
  }

  lemma {:induction false} ChooseDiagonal(n: nat)
    ensures Choose(n, n) == 1
  {
    if n > 0 {
      ChooseDiagonal(n - 1);
      ChooseBeyondRow(n - 1, n);
    }
  }

  /** Zero has no set bits; every other value has at least one. */
  lemma {:induction false} PopZero(v: nat)
    ensures (Pop(v) == 0) == (v == 0)
  {
    if v > 0 && v % 2 == 0 {
      PopZero(v / 2);
    }
  }

  /** A value below 2^w has at most w set bits. */
  lemma {:induction false} PopBound(w: nat, v: nat)
    requires v < Pow2(w)
    ensures Pop(v) <= w
  {
    if v > 0 {
      PopBound(w - 1, v / 2);
    }
  }

  /** Adding the bit 2^w to a value below 2^w adds one set bit. */
  lemma {:induction false} PopHighBit(w: nat, v: nat)
    requires v < Pow2(w)
    ensures Pop(v + Pow2(w)) == Pop(v) + 1
  {
    if w > 0 {
      var h := Pow2(w - 1);
      var u := v + Pow2(w);
      AddEven(v, h);
      assert u % 2 == v % 2 && u / 2 == v / 2 + h;
      PopHighBit(w - 1, v / 2);
      assert Pop(u) == u % 2 + Pop(u / 2);
      assert Pop(v) == v % 2 + Pop(v / 2);
    } else {
      assert Pop(1) == 1 + Pop(0);
    }
  }

  lemma AddEven(x: nat, h: nat)
    ensures (x + 2 * h) % 2 == x % 2 && (x + 2 * h) / 2 == x / 2 + h
  {
  }

  /** 2^w - 1 has all of its w low bits set. */
  lemma {:induction false} PopAllOnes(w: nat)
    ensures Pop(Pow2(w) - 1) == w
  {
    if w > 0 {
      PopAllOnes(w - 1);
      assert (Pow2(w) - 1) / 2 == Pow2(w - 1) - 1;
    }
  }

  lemma {:induction false} BitAndSelf(a: nat)
    ensures BitAnd(a, a) == a
  {
    if a > 0 {
      BitAndSelf(a / 2);
    }
  }

  /** v & (v - 1) clears the lowest set bit of a nonzero v. */
  lemma {:induction false} ClearLowestSetBit(v: nat)
    requires v > 0
    ensures Pop(BitAnd(v, v - 1)) == Pop(v) - 1
    ensures BitAnd(v, v - 1) < v
  {
    if v % 2 == 1 {
      BitAndSelf(v / 2);
      if v > 1 {
        assert (v - 1) / 2 == v / 2 && (v - 1) % 2 == 0;
        assert BitAnd(v, v - 1) == v - 1;
      }
    } else {
      assert (v - 1) / 2 == v / 2 - 1 && (v - 1) % 2 == 1;
      ClearLowestSetBit(v / 2);
      assert BitAnd(v, v - 1) == 2 * BitAnd(v / 2, v / 2 - 1);
    }
  }

  lemma {:induction false} CountPopMonotone(m: nat, m': nat, p: nat)
    requires m <= m'
    ensures CountPop(m, p) <= CountPop(m', p)
    decreases m' - m
  {
    if m < m' {
      CountPopMonotone(m, m' - 1, p);
    }
  }

  /** Counting popcounts over [2^w, 2^w + m) is counting one fewer bit over [0, m). */
  lemma {:induction false} CountPopShift(w: nat, m: nat, p: nat)
    requires m <= Pow2(w)
    ensures CountPop(Pow2(w) + m, p) == CountPop(Pow2(w), p) + (if p == 0 then 0 else CountPop(m, p - 1))
  {
    if m > 0 {
      CountPopShift(w, m - 1, p);
      PopHighBit(w, m - 1);
    }
  }

  /** The number of w-bit values with popcount p is the binomial coefficient. */
  lemma {:induction false} CountPopIsChoose(w: nat, p: nat)
    ensures CountPop(Pow2(w), p) == Choose(w, p)
  {
    if w == 0 {
      assert CountPop(1, p) == CountPop(0, p) + (if Pop(0) == p then 1 else 0);
    } else {
      CountPopShift(w - 1, Pow2(w - 1), p);
      CountPopIsChoose(w - 1, p);
      if p > 0 {
        CountPopIsChoose(w - 1, p - 1);
      }
    }
  }

  /** A value below 2^n is preceded by fewer values of its popcount than the
      whole group holds. */
  lemma CountPopWithin(n: nat, v: nat)
    requires v < Pow2(n)
    ensures CountPop(v, Pop(v)) < Choose(n, Pop(v))
  {
    CountPopMonotone(v + 1, Pow2(n), Pop(v));
    CountPopIsChoose(n, Pop(v));
  }

  lemma {:induction false} OffsetMonotone(n: nat, p: nat, q: nat)
    requires p <= q
    ensures Offset(n, p) <= Offset(n, q)
    decreases q - p
  {
    if p < q {
      OffsetMonotone(n, p, q - 1);
    }
  }

  /** Pascal's rule summed: each prefix sum of row n+1 is two prefix sums of row n. */
  lemma {:induction false} OffsetPascal(n: nat, p: nat)
    ensures Offset(n + 1, p + 1) == Offset(n, p + 1) + Offset(n, p)
  {
    if p > 0 {
      OffsetPascal(n, p - 1);
    }
  }

  /** Offset(n, p) stops growing past p = n + 1. */
  lemma {:induction false} OffsetPastRow(n: nat, p: nat)
    requires p >= n + 1
    ensures Offset(n, p) == Offset(n, n + 1)
    decreases p
  {
    if p > n + 1 {
      OffsetPastRow(n, p - 1);
      ChooseBeyondRow(n, p - 1);
    }
  }

  /** The whole row sums to 2^n. */
  lemma {:induction false} OffsetTotal(n: nat)
    ensures Offset(n, n + 1) == Pow2(n)
  {
    if n > 0 {
      OffsetTotal(n - 1);
      OffsetPascal(n - 1, n);
      OffsetPastRow(n - 1, n + 1);
    }
  }

  /** The last group (popcount n) starts at 2^n - 1. */
  lemma LastGroupStart(n: nat)
    ensures Offset(n, n) == Pow2(n) - 1
  {
    OffsetTotal(n);
    ChooseDiagonal(n);
  }

  /** Pos preserves the table order: a smaller key gets an earlier slot. */
  lemma PosOrder(n: nat, u: nat, v: nat)
    requires u < Pow2(n) && v < Pow2(n)
    requires KeyLess(u, v)
    ensures Pos(n, u) < Pos(n, v)
  {
    if Pop(u) < Pop(v) {
      OffsetMonotone(n, Pop(u) + 1, Pop(v));
    } else {
      CountPopMonotone(u + 1, v, Pop(u));
    }
  }

  /** Distinct values get distinct slots. */
  lemma PosInjective(n: nat, u: nat, v: nat)
    requires u < Pow2(n) && v < Pow2(n) && u != v
    ensures Pos(n, u) != Pos(n, v)
  {
    if KeyLess(u, v) {
      PosOrder(n, u, v);
    } else {
      PosOrder(n, v, u);
    }
  }

  /** Every slot below Offset(n, q) lies in some popcount group p < q. */
  lemma {:induction false} GroupOf(n: nat, s: nat, q: nat) returns (p: nat)
    requires s < Offset(n, q)
    ensures p < q && Offset(n, p) <= s < Offset(n, p + 1)
  {
    if s >= Offset(n, q - 1) {
      p := q - 1;
    } else {
      p := GroupOf(n, s, q - 1);
    }
  }

  /** Each rank below CountPop(m, p) is the rank of some value below m with popcount p. */
  lemma {:induction false} ValueOfRank(m: nat, p: nat, r: nat) returns (v: nat)
    requires r < CountPop(m, p)
    ensures v < m && Pop(v) == p && CountPop(v, p) == r
  {
    if r < CountPop(m - 1, p) {
      v := ValueOfRank(m - 1, p, r);
    } else {
      v := m - 1;
    }
  }

  /** Every slot of the table is the slot of some value. */
  lemma PosOnto(n: nat, s: nat) returns (v: nat)
    requires s < Pow2(n)
    ensures v < Pow2(n) && Pos(n, v) == s
  {
    OffsetTotal(n);
    var p := GroupOf(n, s, n + 1);
    CountPopIsChoose(n, p);
    v := ValueOfRank(Pow2(n), p, s - Offset(n, p));
  }

  /** The table every value placed at its Pos: slot s holds one value, and Pos sends it back to s. */
  predicate PlacedBelow(n: nat, t: seq<int>, m: nat)
  {
    |t| == Pow2(n) && m <= Pow2(n) &&
    forall v :: 0 <= v < m ==> t[Pos(n, v)] == v
  }

  lemma TableSlots(n: nat, t: seq<int>)
    requires PlacedBelow(n, t, Pow2(n))
    ensures forall s :: 0 <= s < |t| ==> 0 <= t[s] < Pow2(n) && Pos(n, t[s]) == s
  {
    forall s | 0 <= s < |t|
      ensures 0 <= t[s] < Pow2(n) && Pos(n, t[s]) == s
    {
      var v := PosOnto(n, s);
    }
  }

  lemma TableOrdered(n: nat, t: seq<int>)
    requires |t| == Pow2(n)
    requires forall s :: 0 <= s < |t| ==> 0 <= t[s] < Pow2(n) && Pos(n, t[s]) == s
    ensures forall s, s' :: 0 <= s < s' < |t| ==> t[s] != t[s'] && KeyLess(t[s], t[s'])
  {
    forall s, s' | 0 <= s < s' < |t|
      ensures t[s] != t[s'] && KeyLess(t[s], t[s'])
    {
      if !KeyLess(t[s], t[s']) {
        PosOrder(n, t[s'], t[s]);
      }
    }
  }

  /** A table that puts each value at its Pos is a permutation of 0 .. 2^n-1
      sorted by popcount and then by value, starting with 0 and ending with 2^n-1. */
  lemma StratifiedTableProperties(n: nat, t: seq<int>)
    requires PlacedBelow(n, t, Pow2(n))
    ensures IsPermutationOfRange(t, Pow2(n))
    ensures OrderedByPopThenValue(t)
    ensures t[0] == 0 && t[Pow2(n) - 1] == Pow2(n) - 1
    ensures InPopCountGroups(n, t)
  {
    TableSlots(n, t);
    TableOrdered(n, t);
    assert Pos(n, 0) == 0;
    PopAllOnes(n);
    LastGroupStart(n);
    ChooseDiagonal(n);
    assert Pos(n, Pow2(n) - 1) == Pow2(n) - 1;
  }

  /** The bucket cursors after the values 1 .. m-1 are placed: cursor p has
      moved past the CountPop(m, p) values of popcount p; cursor 0 is
      never moved. */
  predicate CursorsAt(n: nat, c: seq<int>, m: nat)
  {
    |c| == n + 1 && c[0] == 0 &&
    forall p :: 1 <= p <= n ==> c[p] == Offset(n, p) + CountPop(m, p)
  }

  /** One step of the bucket fill: value i goes to the cursor of its
      popcount, which is its Pos, and that cursor advances. */
  lemma FillStep(n: nat, c: seq<int>, t: seq<int>, i: nat)
    requires 1 <= i < Pow2(n)
    requires CursorsAt(n, c, i) && PlacedBelow(n, t, i)
    ensures 1 <= Pop(i) <= n && c[Pop(i)] == Pos(n, i)
    ensures CursorsAt(n, c[Pop(i) := c[Pop(i)] + 1], i + 1)
    ensures PlacedBelow(n, t[Pos(n, i) := i], i + 1)
  {
    PopZero(i);
    PopBound(n, i);
    var t' := t[Pos(n, i) := i];
    forall v | 0 <= v <= i ensures t'[Pos(n, v)] == v {
      if v < i {
        PosInjective(n, v, i);
      }
    }
  }

  // ---------------------------------------------------------------------------
  // The operations
  // ---------------------------------------------------------------------------

  function Min(a: int, b: int): int { if a < b then a else b }

  /** Binomial coefficient from one Pascal row updated in place, right to left. */
  method Binomial(n: int, k: nat) returns (r: int)
    ensures r == Choose(n, k)
  {
    var c := new int[k + 1](_ => 0);
    c[0] := 1;
    var i := 1;
    while i <= n
      invariant 1 <= i <= (if n >= 1 then n + 1 else 1)
      invariant forall j :: 0 <= j <= k ==> c[j] == Choose(i - 1, j)
    {
      forall m | Min(i, k) < m <= k ensures Choose(i, m) == 0 && Choose(i - 1, m) == 0 {
        ChooseBeyondRow(i, m);
        ChooseBeyondRow(i - 1, m);
      }
      var j := Min(i, k);
      while j > 0
        invariant 0 <= j <= Min(i, k)
        invariant forall m :: 0 <= m <= j ==> c[m] == Choose(i - 1, m)
        invariant forall m :: j < m <= k ==> c[m] == Choose(i, m)
      {
        c[j] := c[j] + c[j - 1];
        j := j - 1;
      }
      i := i + 1;
    }
    assert n <= 0 ==> Choose(0, k) == Choose(n, k);
    r := c[k];
  }

  /** count_bits: clears the lowest set bit until none is left, counting the steps. */
  method CountBits(v0: nat) returns (bits: nat)
    requires v0 < Modulus
    ensures bits == Pop(v0)
    ensures bits <= 32
  {
    Pow2Fits(32);
    PopBound(32, v0);
    var v := v0;
    bits := 0;
    while v != 0
      invariant bits + Pop(v) == Pop(v0)
      decreases v
    {
      ClearLowestSetBit(v);
      v := BitAnd(v, v - 1);
      bits := bits + 1;
    }
    PopZero(v);
  }

  /** generateStratifiedLookupTable: indices[p] is the first slot of popcount p,
      and the table lists 0 .. 2^n-1 grouped by popcount, ascending in each group. */
  method GenerateStratifiedLookupTable(n: nat) returns (indices: array<int>, lookUpTable: array<int>)
    requires n <= 31
    ensures fresh(indices) && fresh(lookUpTable)
    ensures indices.Length == n + 1 && lookUpTable.Length == Pow2(n)
    ensures forall p :: 0 <= p <= n ==> indices[p] == Offset(n, p)
    ensures indices[0] == 0 && indices[n] == Pow2(n) - 1
    ensures IsPermutationOfRange(lookUpTable[..], Pow2(n))
    ensures OrderedByPopThenValue(lookUpTable[..])
    ensures lookUpTable[0] == 0 && lookUpTable[Pow2(n) - 1] == Pow2(n) - 1
    ensures InPopCountGroups(n, lookUpTable[..])
  {
    var maxEntries := Pow2(n);
    indices := GenerateIndexList(n);
    lookUpTable := new int[maxEntries];
    LastGroupStart(n);

    // the bucket fill starts from the group starts
    var currentIndices := new int[n + 1](j reads indices requires 0 <= j < indices.Length => indices[j]);
    FillLookUpTable(n, currentIndices, lookUpTable);
    StratifiedTableProperties(n, lookUpTable[..]);
  }

  /** The index list: slot 0 starts group 0, and each next group starts
      Binomial(n, p - 1) slots after the previous one. */
  method GenerateIndexList(n: nat) returns (indices: array<int>)
    ensures fresh(indices)
    ensures indices.Length == n + 1
    ensures forall p :: 0 <= p <= n ==> indices[p] == Offset(n, p)
  {
    indices := new int[n + 1];
    indices[0] := 0;
    for i := 1 to n + 1
      invariant forall p {:trigger indices[p]} :: 0 <= p < i ==> indices[p] == Offset(n, p)
    {
      var b := Binomial(n, i - 1);
      indices[i] := b + indices[i - 1];
    }
  }

  /** The bucket fill: value 0 goes to slot 0, and each later value to the
      cursor of its popcount group, which then advances. */
  method FillLookUpTable(n: nat, currentIndices: array<int>, lookUpTable: array<int>)
    requires n <= 31
    requires currentIndices.Length == n + 1 && lookUpTable.Length == Pow2(n)
    requires currentIndices != lookUpTable
    requires forall p :: 0 <= p <= n ==> currentIndices[p] == Offset(n, p)
    modifies currentIndices, lookUpTable
    ensures PlacedBelow(n, lookUpTable[..], Pow2(n))
  {
    lookUpTable[0] := 0;
    assert Pos(n, 0) == 0;
    assert PlacedBelow(n, lookUpTable[..], 1);
    Pow2Fits(n);
    for i := 1 to Pow2(n)
      invariant CursorsAt(n, currentIndices[..], i)
      invariant PlacedBelow(n, lookUpTable[..], i)
    {
      var popCount := CountBits(i);
      ghost var cursors, table := currentIndices[..], lookUpTable[..];
      FillStep(n, cursors, table, i);
      var index := currentIndices[popCount];
      lookUpTable[index] := i;
      assert lookUpTable[..] == table[Pos(n, i) := i];
      currentIndices[popCount] := currentIndices[popCount] + 1;
      assert currentIndices[..] == cursors[Pop(i) := cursors[Pop(i)] + 1];
    }
  }

  lemma Pow2Plus4(k: nat)
    ensures Pow2(k + 4) == 16 * Pow2(k)
  {
    assert Pow2(k + 4) == 2 * Pow2(k + 3);
    assert Pow2(k + 3) == 2 * Pow2(k + 2);
    assert Pow2(k + 2) == 2 * Pow2(k + 1);
    assert Pow2(k + 1) == 2 * Pow2(k);
  }

  lemma Pow2Is32Bits()
    ensures Pow2(32) == Modulus
  {
    Pow2Plus4(0);
    Pow2Plus4(4);
    Pow2Plus4(8);
    Pow2Plus4(12);
    Pow2Plus4(16);
    Pow2Plus4(20);
    Pow2Plus4(24);
    Pow2Plus4(28);
  }

  /** 2^n is a uint32_t value for n <= 31; 2^32 is one past the largest. */
  lemma Pow2Fits(n: nat)
    requires n <= 32
    ensures Pow2(n) <= Modulus
    ensures n <= 31 ==> Pow2(n) < Modulus
    ensures n == 32 ==> Pow2(n) == Modulus
  {
    Pow2Is32Bits();
    if n <= 31 {
      Pow2Monotone(n, 31);
      assert Pow2(32) == 2 * Pow2(31);
    } else {
      assert n == 32;
    }
  }

  lemma {:induction false} Pow2Monotone(a: nat, b: nat)
    requires a <= b
    ensures Pow2(a) <= Pow2(b)
    decreases b - a
  {
    if a < b {
      Pow2Monotone(a, b - 1);
    }
  }
}
