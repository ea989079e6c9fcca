/** The rolling weak checksum: 16+16 bits, computed in wrapping 32-bit arithmetic. */
module Checksum {
  import opened Ints

  /** s1 and s2 are kept reduced to 16 bits. */
  datatype RollingWeak = RollingWeak(s1: u32, s2: u32) {
    function Value(): u32 {
      (s2 % TWO_16) * TWO_16 + s1 % TWO_16
    }
  }

  /** The sum of the bytes. */
  ghost function Sum(d: Bytes): nat {
    if d == [] then 0 else Sum(d[..|d|-1]) + d[|d|-1]
  }

  ghost function Times(a: nat, b: nat): nat {
    a * b
  }

  /** The sum of the bytes, the leftmost weighted 1 and the rightmost |d|. */
  ghost function WeightedSum(d: Bytes): nat {
    if d == [] then 0 else WeightedSum(d[..|d|-1]) + Times(|d|, d[|d|-1])
  }

  /** What the checksum of a window means, over unbounded integers. */
  ghost function WeakOf(d: Bytes): RollingWeak {
    RollingWeak(Sum(d) % TWO_16, WeightedSum(d) % TWO_16)
  }

  /** The checksum is one 32-bit number: the weighted sum in the upper half, the sum of the bytes in the lower. */
  lemma WeakValue(d: Bytes)
    ensures var v := WeakOf(d).Value();
            v / 0x1_0000 == WeightedSum(d) % 0x1_0000 && v % 0x1_0000 == Sum(d) % 0x1_0000
  {
    hide Sum, WeightedSum;
    Halves(WeightedSum(d) % TWO_16, Sum(d) % TWO_16);
  }

  lemma Halves(a: u16, b: u16)
    ensures var v := a % TWO_16 * TWO_16 + b % TWO_16; v / 0x1_0000 == a && v % 0x1_0000 == b
  {
  }

  /** The 32-bit accumulators of the summation, before the final mask. */
  function Accumulate(s1: u32, s2: u32, j: u32, x: u8): (u32, u32) {
    (Wrap32(s1 + x), Wrap32(s2 + Wrap32(Wrap32(j + 1) * x)))
  }

  /** The accumulators after the bytes of d hold the two sums modulo 2^32. */
  ghost predicate Accumulates(d: Bytes, s1: u32, s2: u32) {
    s1 == Sum(d) % TWO_32 && s2 == WeightedSum(d) % TWO_32
  }

  lemma AccumulateByte(d: Bytes, s1: u32, s2: u32, x: u8)
    requires |d| + 1 < TWO_32 && Accumulates(d, s1, s2)
    ensures var (t1, t2) := Accumulate(s1, s2, |d|, x); Accumulates(d + [x], t1, t2)
  {
    assert (d + [x])[..|d|] == d;
    assert Sum(d + [x]) == Sum(d) + x && WeightedSum(d + [x]) == WeightedSum(d) + Times(|d| + 1, x);
    hide Sum, WeightedSum;
    WrapWeighted(WeightedSum(d), |d|, x);
    WrapByte(Sum(d), x);
    hide Wrap32;
  }

  lemma WrapAdd(a: int, b: int)
    ensures (a % TWO_32 + b % TWO_32) % TWO_32 == (a + b) % TWO_32
  {
  }

  lemma WrapByte(s: int, x: u8)
    ensures Wrap32(s % TWO_32 + x) == (s + x) % TWO_32
  {
  }

  lemma WrapWeighted(s: int, j: u32, x: u8)
    requires j + 1 < TWO_32
    ensures Wrap32(s % TWO_32 + Wrap32(Wrap32(j + 1) * x)) == (s + (j + 1) * x) % TWO_32
  {
    WrapAdd(s, (j + 1) * x);
  }

  lemma Mask(a: int)
    ensures (a % TWO_32) % TWO_16 == a % TWO_16
  {
  }

  /** The checksum of a window from scratch. */
  method WeakInit(data: Bytes) returns (w: RollingWeak)
    requires |data| < TWO_32
    ensures w == WeakOf(data)
  {
    var s1: u32, s2: u32 := 0, 0;
    for j := 0 to |data|
      invariant Accumulates(data[..j], s1, s2)
    {
      AccumulateByte(data[..j], s1, s2, data[j]);
      assert data[..j+1] == data[..j] + [data[j]];
      var (t1, t2) := Accumulate(s1, s2, j, data[j]);
      s1, s2 := t1, t2;
    }
    assert data[..|data|] == data;
    Mask(Sum(data));
    Mask(WeightedSum(data));
    w := RollingWeak(s1 % TWO_16, s2 % TWO_16);
  }

  /** Moving the window one byte: s2 first, from the old s1; the subtractions may wrap. */
  function WeakRoll(w: RollingWeak, outByte: u8, inByte: u8, len: u32): RollingWeak {
    Rolled(w.s1, w.s2, len * inByte, inByte, outByte)
  }

  function Rolled(s1: u32, s2: u32, weighted: int, inByte: u8, outByte: u8): RollingWeak {
    var newS2 := Wrap32(Wrap32(s2 + Wrap32(weighted)) - s1) % TWO_16;
    var newS1 := Wrap32(Wrap32(s1 + inByte) - outByte) % TWO_16;
    RollingWeak(newS1, newS2)
  }

  lemma TimesNext(n: nat, x: nat)
    ensures Times(n + 1, x) == Times(n, x) + x
  {
  }

  lemma {:induction false} DropFirst(d: Bytes)
    requires d != []
    ensures Sum(d[1..]) == Sum(d) - d[0]
    ensures WeightedSum(d[1..]) == WeightedSum(d) - Sum(d)
  {
    hide Times;
    var n := |d| - 1;
    if n == 0 {
      assert d[..0] == [] && d[1..] == [];
      TimesNext(0, d[0]);
      TimesZero(d[0]);
    } else {
      DropFirst(d[..n]);
      var e := d[1..];
      assert e[..n-1] == d[..n][1..] && e[n-1] == d[n];
      TimesNext(n, d[n]);
    }
  }

  lemma TimesZero(x: nat)
    ensures Times(0, x) == 0
  {
  }

  /** z differs from a by a multiple of 2^16. */
  ghost predicate Congruent(z: int, a: int, k: int) {
    z == a + TWO_16 * k
  }

  lemma SameLowBits(z: int, a: int, k: int)
    requires Congruent(z, a, k)
    ensures z % TWO_16 == a % TWO_16
  {
  }

  lemma Wrapped(z: int, a: int, k: int) returns (l: int)
    requires Congruent(z, a, k)
    ensures Congruent(Wrap32(z), a, l)
  {
    assert Wrap32(z) == z - TWO_32 * (z / TWO_32);
    l := k - TWO_16 * (z / TWO_32);
  }

  lemma RolledSums(s1: nat, s2: nat, x: nat, y: u8, o: u8)
    ensures Rolled(s1 % TWO_16, s2 % TWO_16, x, y, o) == RollingWeak((s1 + y - o) % TWO_16, (s2 + x - s1) % TWO_16)
  {
    var q1, q2 := s1 / TWO_16, s2 / TWO_16;
    assert s1 % TWO_16 == s1 - TWO_16 * q1 && s2 % TWO_16 == s2 - TWO_16 * q2;
    var k := Wrapped(x, x, 0);
    var l := Wrapped(s2 % TWO_16 + Wrap32(x), s2 + x, k - q2);
    var m := Wrapped(Wrap32(s2 % TWO_16 + Wrap32(x)) - s1 % TWO_16, s2 + x - s1, l + q1);
    SameLowBits(Wrap32(Wrap32(s2 % TWO_16 + Wrap32(x)) - s1 % TWO_16), s2 + x - s1, m);
    var n := Wrapped(s1 % TWO_16 + y, s1 + y, -q1);
    var p := Wrapped(Wrap32(s1 % TWO_16 + y) - o, s1 + y - o, n);
    SameLowBits(Wrap32(Wrap32(s1 % TWO_16 + y) - o), s1 + y - o, p);
  }

  lemma ShiftedSums(d: Bytes, inByte: u8)
    requires d != []
    ensures Sum(d[1..] + [inByte]) == Sum(d) + inByte - d[0]
    ensures WeightedSum(d[1..] + [inByte]) == WeightedSum(d) + Times(|d|, inByte) - Sum(d)
  {
    hide Times;
    var e := d[1..] + [inByte];
    assert e[..|e|-1] == d[1..];
    DropFirst(d);
  }

  /** Rolling the checksum of a window gives the checksum of the shifted window. */
  lemma RollIsShift(d: Bytes, inByte: u8)
    requires d != [] && |d| < TWO_32
    ensures WeakRoll(WeakOf(d), d[0], inByte, |d|) == WeakOf(d[1..] + [inByte])
  {
    ShiftedSums(d, inByte);
    hide Rolled, Sum, WeightedSum;
    assert Times(|d|, inByte) == |d| * inByte;
    RolledSums(Sum(d), WeightedSum(d), |d| * inByte, inByte, d[0]);
  }

  function Pow2(n: nat): nat {
    if n == 0 then 1 else 2 * Pow2(n - 1)
  }

  /** Exclusive or of the low `bits` bits. */
  function Xor(a: nat, b: nat, bits: nat): (r: nat)
    ensures r < Pow2(bits)
  {
    if bits == 0 then 0
    else 2 * Xor(a / 2, b / 2, bits - 1) + (if a % 2 == b % 2 then 0 else 1)
  }

  /** The 16-bit fold that selects a bucket. */
  function BucketOf(weak: u32): u16 {
    assert Pow2(4) == 16 && Pow2(8) == 256 && Pow2(12) == 4096 && Pow2(16) == TWO_16;
    Xor(weak / TWO_16, weak % TWO_16, 16)
  }
}
