/** Integer arithmetic of the delta planner: square root, block sizes, and the 128-bit projection test. */
module DeltaArith {
  import opened Ints

  const MIN_BLOCK: int := 2048
  const MAX_BLOCK: int := 131072
  const BLOCK_ALIGN: int := 1024
  const BENEFIT_NUM: int := 65
  const BENEFIT_DEN: int := 100
  const PREFIX_PERCENT: int := 5
  const PREFIX_CAP_BYTES: int := 268435456
  const PREFIX_FLOOR_BYTES: int := 1048576
  const PREFIX_FLOOR_BLOCKS: int := 256
  const EVAL_STRIDE: int := 4194304

  // ----- Integer square root -----

  /** r is the floor of the square root of v. */
  ghost predicate IsRoot(r: int, v: int) {
    0 <= r && r * r <= v < (r + 1) * (r + 1)
  }

  predicate PowerOf4(n: nat) {
    n == 1 || (n > 0 && n % 4 == 0 && PowerOf4(n / 4))
  }

  /** The state of the bit-by-bit loop: q is the root of the part of value above c, a power of four,
      and the accumulators hold c*q and what is left of value. Nothing exceeds 64 bits. */
  ghost predicate RootInv(value: int, c: nat, q: nat, result: int, v: int) {
    && result == c * q && v == value - c * (q * q)
    && c * (q * q) <= value < c * ((q + 1) * (q + 1)) <= TWO_64
  }

  lemma NextSquare(k: int, q: int)
    ensures k * ((q + 1) * (q + 1)) == k * (q * q) + 2 * (k * q) + k
    ensures k * (q + 1) == k * q + k
  {
    assert (q + 1) * (q + 1) == q * q + 2 * q + 1;
  }

  lemma Doubled(k: int, q: int)
    ensures k * ((2 * q) * (2 * q)) == 4 * (k * (q * q)) == (4 * k) * (q * q)
    ensures k * (2 * q) == 2 * (k * q) && (4 * k) * q == 4 * (k * q)
  {
    assert (2 * q) * (2 * q) == 4 * (q * q);
  }

  lemma Digits(bit: int, q: int)
    ensures var s, t := bit * (q * q), bit * q;
            && (4 * bit) * (q * q) == 4 * s && (4 * bit) * q == 4 * t
            && (4 * bit) * ((q + 1) * (q + 1)) == 4 * s + 8 * t + 4 * bit
            && bit * (2 * q) == 2 * t && bit * ((2 * q) * (2 * q)) == 4 * s
            && bit * (2 * q + 1) == 2 * t + bit && bit * ((2 * q + 1) * (2 * q + 1)) == 4 * s + 4 * t + bit
            && bit * ((2 * q + 1 + 1) * (2 * q + 1 + 1)) == 4 * s + 8 * t + 4 * bit
  {
    Doubled(bit, q);
    Doubled(bit, q + 1);
    NextSquare(4 * bit, q);
    NextSquare(bit, 2 * q);
    NextSquare(bit, 2 * q + 1);
  }

  /** One turn of the loop appends one binary digit to the root. */
  lemma RootDigit(value: int, bit: nat, q: nat, result: int, v: int)
    requires RootInv(value, 4 * bit, q, result, v) && bit > 0
    ensures result + bit < TWO_64
    ensures v >= result + bit ==> RootInv(value, bit, 2 * q + 1, result / 2 + bit, v - (result + bit))
    ensures v < result + bit ==> RootInv(value, bit, 2 * q, result / 2, v)
  {
    Digits(bit, q);
    assert bit * (q * q) >= 0 && bit * q >= 0;
  }

  lemma Shift8(n: nat)
    requires PowerOf4(n)
    ensures PowerOf4(256 * n)
  {
    Shift2(n);
    Shift2(4 * n);
    Shift2(16 * n);
    Shift2(64 * n);
  }

  lemma Shift2(n: nat)
    requires PowerOf4(n)
    ensures PowerOf4(4 * n)
  {
    assert (4 * n) % 4 == 0 && (4 * n) / 4 == n;
  }

  lemma TopBit()
    ensures PowerOf4(0x4000_0000_0000_0000)
  {
    assert PowerOf4(4) && PowerOf4(16) && PowerOf4(64);
    Shift8(0x40);
    Shift8(0x4000);
    Shift8(0x40_0000);
    Shift8(0x4000_0000);
    Shift8(0x40_0000_0000);
    Shift8(0x4000_0000_0000);
    Shift8(0x40_0000_0000_0000);
  }

  /** The exact floor square root; the u64 variables never overflow. */
  method Isqrt64(value: u64) returns (result: u64)
    ensures IsRoot(result, value)
  {
    if value == 0 {
      return 0;
    }
    result := 0;
    var bit: u64 := 0x4000_0000_0000_0000;
    TopBit();
    while bit > value
      invariant PowerOf4(bit) && value < 4 * bit <= TWO_64
    {
      bit := bit / 4;
    }
    var v: u64 := value;
    assert RootInv(value, 4 * bit, 0, 0, value);
    hide RootInv;
    ghost var q: nat := 0;
    ghost var c: nat := 4 * bit;
    while bit != 0
      invariant RootInv(value, c, q, result, v)
      invariant if bit == 0 then c == 1 else c == 4 * bit && PowerOf4(bit)
      decreases bit
    {
      assert bit >= 1 && bit / 4 < bit && (bit == 1 || PowerOf4(bit / 4));
      RootDigit(value, bit, q, result, v);
      if v >= result + bit {
        v := v - (result + bit);
        result := result / 2 + bit;
        q := 2 * q + 1;
      } else {
        result := result / 2;
        q := 2 * q;
      }
      c := bit;
      bit := bit / 4;
    }
    RootFound(value, q, result, v);
  }

  lemma RootFound(value: int, q: nat, result: int, v: int)
    requires RootInv(value, 1, q, result, v)
    ensures IsRoot(result, value)
  {
  }

  /** The root as a function, for use in specifications. */
  ghost function Root(v: nat): (r: nat)
    ensures IsRoot(r, v)
  {
    if v == 0 then 0
    else var r := Root(v - 1); if (r + 1) * (r + 1) <= v then r + 1 else r
  }

  lemma RootIsUnique(v: nat, r: nat)
    requires IsRoot(r, v)
    ensures r == Root(v)
  {
    var t := Root(v);
    SquaresGrow(r + 1, t);
    SquaresGrow(t + 1, r);
  }

  lemma SquaresGrow(a: nat, b: nat)
    ensures a <= b ==> a * a <= b * b
  {
  }

  // ----- Block and checksum sizes -----

  /** The root of the file size, rounded up to 1 KiB and clamped. */
  ghost function BlockSizeFor(fileSize: u64): u32 {
    var aligned := (Root(fileSize) + BLOCK_ALIGN - 1) / BLOCK_ALIGN * BLOCK_ALIGN;
    if aligned < MIN_BLOCK then MIN_BLOCK else if aligned > MAX_BLOCK then MAX_BLOCK else aligned
  }

  /** Whole KiB between 2 and 128, not shorter than the root of the file size and less than a KiB longer, except
      at the two limits. */
  ghost predicate BalancedSize(fileSize: u64, size: int) {
    && size % 1024 == 0 && 2048 <= size <= 131072
    && (size < 131072 ==> (size + 1) * (size + 1) > fileSize)
    && (size > 2048 ==> (size - 1023) * (size - 1023) <= fileSize)
  }

  lemma BlockSizeBalances(fileSize: u64)
    ensures BalancedSize(fileSize, BlockSizeFor(fileSize))
  {
    var r, size := Root(fileSize), BlockSizeFor(fileSize);
    if size < 131072 {
      SquaresGrow(r + 1, size + 1);
    }
    if size > 2048 {
      SquaresGrow(size - 1023, r);
    }
  }

  /** Only one size balances a file. */
  lemma BalancedSizeIsUnique(fileSize: u64, a: int, b: int)
    requires BalancedSize(fileSize, a) && BalancedSize(fileSize, b)
    ensures a == b
  {
    if a < b {
      SquaresGrow(a + 1, b - 1023);
    } else if b < a {
      SquaresGrow(b + 1, a - 1023);
    }
  }

  method ChooseBlockSize(fileSize: u64) returns (size: u32)
    ensures size == BlockSizeFor(fileSize) && BalancedSize(fileSize, size)
  {
    var raw := Isqrt64(fileSize);
    RootIsUnique(fileSize, raw);
    var aligned := (raw + BLOCK_ALIGN - 1) / BLOCK_ALIGN * BLOCK_ALIGN;
    if aligned < MIN_BLOCK {
      aligned := MIN_BLOCK;
    }
    if aligned > MAX_BLOCK {
      aligned := MAX_BLOCK;
    }
    size := aligned;
    BlockSizeBalances(fileSize);
  }

  function ChooseStrongLen(blockCount: u32): u8 {
    if blockCount <= 0x1_0000 then 8 else if blockCount <= 0x40_0000 then 12 else 16
  }

  /** Three lengths, the longer ones for more than 2^16 and for more than 2^22 blocks. */
  lemma StrongLenMeaning(blockCount: u32)
    ensures var n := ChooseStrongLen(blockCount);
            && (n == 8 || n == 12 || n == 16)
            && (n > 8 <==> blockCount > 65536) && (n > 12 <==> blockCount > 4194304)
  {
  }

  // ----- The early-stop projection -----

  datatype U128 = U128(hi: u64, lo: u64)

  /** Adding up the four partial products, in 64-bit steps. */
  function Combine(lolo: u64, lohi: u64, hilo: u64, hihi: u64): U128 {
    var cross := Wrap64(lolo / TWO_32 + lohi % TWO_32 + hilo % TWO_32);
    U128(Wrap64(hihi + lohi / TWO_32 + hilo / TWO_32 + cross / TWO_32),
         (cross % TWO_32) * TWO_32 + lolo % TWO_32)
  }

  /** The portable 64x64 -> 128 multiplication. */
  function Mul64(a: u64, b: u64): U128 {
    var aLo, aHi := a % TWO_32, a / TWO_32;
    var bLo, bHi := b % TWO_32, b / TWO_32;
    Combine(Wrap64(aLo * bLo), Wrap64(aLo * bHi), Wrap64(aHi * bLo), Wrap64(aHi * bHi))
  }

  function Value128(x: U128): nat {
    x.hi * TWO_64 + x.lo
  }

  lemma MulGrows(x: nat, y: nat, m: nat, n: nat)
    requires x <= m && y <= n
    ensures x * y <= m * n
  {
    assert (m - x) * y >= 0 && m * (n - y) >= 0;
    assert m * n == x * y + (m - x) * y + m * (n - y);
  }

  lemma ProductBound32(x: nat, y: nat)
    requires x < TWO_32 && y < TWO_32
    ensures Wrap64(x * y) == x * y
  {
    MulGrows(x, y, TWO_32 - 1, TWO_32 - 1);
  }

  lemma ProductBound64(x: nat, y: nat)
    requires x < TWO_64 && y < TWO_64
    ensures x * y < TWO_64 * TWO_64
  {
    MulGrows(x, y, TWO_64 - 1, TWO_64 - 1);
  }

  lemma Split(a: nat, b: nat)
    ensures a * b == (a / TWO_32) * (b / TWO_32) * TWO_64
                   + ((a % TWO_32) * (b / TWO_32) + (a / TWO_32) * (b % TWO_32)) * TWO_32
                   + (a % TWO_32) * (b % TWO_32)
  {
    var aLo, aHi, bLo, bHi := a % TWO_32, a / TWO_32, b % TWO_32, b / TWO_32;
    assert a == aHi * TWO_32 + aLo && b == bHi * TWO_32 + bLo;
    assert a * b == aHi * TWO_32 * (bHi * TWO_32) + aHi * TWO_32 * bLo + aLo * (bHi * TWO_32) + aLo * bLo;
    assert aHi * TWO_32 * (bHi * TWO_32) == aHi * bHi * TWO_64;
    assert aHi * TWO_32 * bLo == aHi * bLo * TWO_32;
    assert aLo * (bHi * TWO_32) == aLo * bHi * TWO_32;
  }

  /** The carry bookkeeping, linear once the four partial products are given. */
  lemma CombineExact(lolo: u64, lohi: u64, hilo: u64, hihi: u64, p: nat)
    requires p == hihi * TWO_64 + (lohi + hilo) * TWO_32 + lolo && p < TWO_64 * TWO_64
    ensures Value128(Combine(lolo, lohi, hilo, hihi)) == p
  {
    var cross := lolo / TWO_32 + lohi % TWO_32 + hilo % TWO_32;
    var hi := hihi + lohi / TWO_32 + hilo / TWO_32 + cross / TWO_32;
    assert hi * TWO_64 + (cross % TWO_32) * TWO_32 + lolo % TWO_32 == p;
    assert Wrap64(cross) == cross && Wrap64(hi) == hi;
  }

  /** The two halves are the full product. */
  lemma Mul64Exact(a: u64, b: u64)
    ensures Value128(Mul64(a, b)) == a * b
  {
    var aLo, aHi, bLo, bHi := a % TWO_32, a / TWO_32, b % TWO_32, b / TWO_32;
    ProductBound32(aLo, bLo);
    ProductBound32(aLo, bHi);
    ProductBound32(aHi, bLo);
    ProductBound32(aHi, bHi);
    ProductBound64(a, b);
    Split(a, b);
    hide Wrap64;
    CombineExact(Wrap64(aLo * bLo), Wrap64(aLo * bHi), Wrap64(aHi * bLo), Wrap64(aHi * bHi), a * b);
  }

  predicate LessEqual128(x: U128, y: U128) {
    x.hi < y.hi || (x.hi == y.hi && x.lo <= y.lo)
  }

  lemma LessEqualIsOrder(x: U128, y: U128)
    ensures LessEqual128(x, y) <==> Value128(x) <= Value128(y)
  {
  }

  /** The constants are folded into one 64-bit factor each, which may wrap. */
  predicate ProjectedRejected(matchedBytes: u64, scannedBytes: u64, oldLen: u64, newFileBytes: u64) {
    scannedBytes != 0 &&
    LessEqual128(Mul64(matchedBytes, Wrap64(oldLen * BENEFIT_DEN)),
                 Mul64(newFileBytes, Wrap64(scannedBytes * (BENEFIT_DEN - BENEFIT_NUM))))
  }

  /** On files that fit the stated bound the test is the exact one over unbounded integers. */
  lemma ProjectionIsExact(matchedBytes: u64, scannedBytes: u64, oldLen: u64, newFileBytes: u64)
    requires scannedBytes > 0
    requires oldLen * BENEFIT_DEN < TWO_64 && scannedBytes * (BENEFIT_DEN - BENEFIT_NUM) < TWO_64
    ensures ProjectedRejected(matchedBytes, scannedBytes, oldLen, newFileBytes) <==>
            matchedBytes * oldLen * 100 <= newFileBytes * 35 * scannedBytes
  {
    var l, r := oldLen * BENEFIT_DEN, scannedBytes * (BENEFIT_DEN - BENEFIT_NUM);
    assert Wrap64(l) == l && Wrap64(r) == r;
    Mul64Exact(matchedBytes, l);
    Mul64Exact(newFileBytes, r);
    LessEqualIsOrder(Mul64(matchedBytes, l), Mul64(newFileBytes, r));
    hide Wrap64, Mul64, Value128, LessEqual128;
    Regroup(matchedBytes, oldLen, 100, l);
    Regroup(newFileBytes, scannedBytes, 35, r);
  }

  ghost predicate ExactAt(matched: u64, scanned: u64, oldLen: u64, newBytes: u64) {
    ProjectedRejected(matched, scanned, oldLen, newBytes) <==> matched * oldLen * 100 <= newBytes * 35 * scanned
  }

  /** The test is exact for an old length, whatever was matched (at most what was scanned, unless any),
      however far the scan has come and however large the new file is. */
  ghost predicate ProjectionExactFor(oldLen: u64, any: bool) {
    forall matched: u64, scanned: u64, newBytes: u64 ::
      0 < scanned <= oldLen && (any || matched <= scanned) ==> ExactAt(matched, scanned, oldLen, newBytes)
  }

  /** The exact condition: the test is right for an old length if and only if a hundred times it fits in
      64 bits. Below that it is right for every evidence, beyond it is wrong already for some evidence a
      scan can produce. */
  lemma ProjectionExactIff(oldLen: u64, any: bool)
    requires oldLen > 0
    ensures ProjectionExactFor(oldLen, any) <==> oldLen * 100 < TWO_64
  {
    hide ExactAt, ProjectedRejected;
    if oldLen * 100 < TWO_64 {
      forall matched: u64, scanned: u64, newBytes: u64 | 0 < scanned <= oldLen
        ensures ExactAt(matched, scanned, oldLen, newBytes)
      {
        ExactBelow(matched, scanned, oldLen, newBytes);
      }
    } else {
      var newBytes := InexactBeyond(oldLen);
    }
  }

  lemma ExactBelow(matched: u64, scanned: u64, oldLen: u64, newBytes: u64)
    requires 0 < scanned <= oldLen && oldLen * 100 < TWO_64
    ensures ExactAt(matched, scanned, oldLen, newBytes)
  {
    ProjectionIsExact(matched, scanned, oldLen, newBytes);
  }

  lemma InexactBeyond(oldLen: u64) returns (newBytes: u64)
    requires oldLen * 100 >= TWO_64
    ensures !ExactAt(1, 1, oldLen, newBytes)
  {
    hide ProjectedRejected;
    newBytes := WrappedEvidence(oldLen);
  }

  /** Past the bound one byte scanned and matched is enough to be refused: for a new file so large that
      even the wrapped factor is reached, but not the true one. */
  lemma WrappedEvidence(oldLen: u64) returns (newBytes: u64)
    requires oldLen * 100 >= TWO_64
    ensures ProjectedRejected(1, 1, oldLen, newBytes) && oldLen * 100 > newBytes * 35
  {
    var w := Wrap64(oldLen * BENEFIT_DEN);
    newBytes := (w + 34) / 35;
    assert w <= newBytes * 35 <= w + 34 && w + 34 < oldLen * 100;
    Mul64Exact(1, w);
    Mul64Exact(newBytes, 35);
    LessEqualIsOrder(Mul64(1, w), Mul64(newBytes, 35));
    hide Mul64, Value128, LessEqual128;
  }

  lemma Regroup(a: int, b: int, k: int, bk: int)
    requires bk == b * k
    ensures a * bk == a * b * k == a * k * b
  {
  }

  /** Past the bound the folded factor wraps: a file of 2^62 bytes is rejected on any evidence. */
  lemma ProjectionWraps()
    ensures ProjectedRejected(1, 1, 0x4000_0000_0000_0000, 1)
    ensures 1 * 0x4000_0000_0000_0000 * 100 > 1 * 35 * 1
  {
    Mul64Exact(1, 0);
    Mul64Exact(1, 35);
  }

  function EarlyStopPrefixBytes(oldLen: u64, blockSize: u32): u64 {
    var blockFloor := blockSize * PREFIX_FLOOR_BLOCKS;
    var floorBytes := if blockFloor > PREFIX_FLOOR_BYTES then blockFloor else PREFIX_FLOOR_BYTES;
    var pct := oldLen / 100 * PREFIX_PERCENT + (oldLen % 100) * PREFIX_PERCENT / 100;
    var prefix := if floorBytes > pct then floorBytes else pct;
    if prefix > PREFIX_CAP_BYTES then PREFIX_CAP_BYTES else prefix
  }

  /** Enough to look at before a projection: a MiB, 256 blocks, and five hundredths of the old file. */
  ghost predicate EnoughEvidence(oldLen: u64, blockSize: u32, x: nat) {
    x >= 1048576 && x >= 256 * blockSize && 20 * (x + 1) > oldLen
  }

  /** The prefix is the least such amount, but never more than 256 MiB. */
  lemma PrefixIsLeast(oldLen: u64, blockSize: u32)
    ensures var r := EarlyStopPrefixBytes(oldLen, blockSize);
            && r <= 268435456 && (r < 268435456 ==> EnoughEvidence(oldLen, blockSize, r))
            && forall x: nat :: EnoughEvidence(oldLen, blockSize, x) ==> r <= x
  {
    var pct := oldLen / 100 * PREFIX_PERCENT + (oldLen % 100) * PREFIX_PERCENT / 100;
    assert 20 * pct <= oldLen < 20 * (pct + 1);
  }

  predicate BenefitRejected(downloadBytes: u64, newFileBytes: u64) {
    Wrap64(downloadBytes * BENEFIT_DEN) >= Wrap64(newFileBytes * BENEFIT_NUM)
  }

  ghost predicate BenefitExactAt(download: u64, newBytes: u64) {
    BenefitRejected(download, newBytes) <==> download * 100 >= newBytes * 65
  }

  /** The benefit test is the exact ratio for every download of a new file if and only if a hundred times
      the file fits in 64 bits. */
  lemma BenefitExactIff(newBytes: u64)
    ensures (forall download: u64 :: download <= newBytes ==> BenefitExactAt(download, newBytes))
            <==> newBytes * 100 < TWO_64
  {
    if newBytes * 100 >= TWO_64 {
      var download := InexactBenefit(newBytes);
    }
  }

  lemma WrapLess(x: nat, k: nat)
    requires k <= Wrap64(x)
    ensures k <= x && Wrap64(x - k) == Wrap64(x) - k
  {
  }

  lemma InexactBenefit(newBytes: u64) returns (download: u64)
    requires newBytes * 100 >= TWO_64
    ensures download <= newBytes && !BenefitExactAt(download, newBytes)
  {
    var w := Wrap64(newBytes * BENEFIT_NUM);
    if newBytes * 65 < TWO_64 {
      download := (TWO_64 + 99) / 100;
    } else if (TWO_64 - 1) / 100 * 100 >= w {
      download := (TWO_64 - 1) / 100;
    } else if Wrap64(newBytes * BENEFIT_DEN) < w {
      download := newBytes;
    } else {
      download := newBytes - 1;
      WrapLess(newBytes * 100, 100);
    }
  }
}
