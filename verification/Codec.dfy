/** Little-endian integers and length-prefixed strings: appending to a buffer, and reading at a cursor. */
module Codec {
  import opened Ints

  datatype Result<T> = Ok(value: T) | Err(error: string)

  // ----- Little-endian numbers -----

  function Little(n: nat, v: nat): (b: Bytes)
    ensures |b| == n
  {
    if n == 0 then [] else [v % 256] + Little(n - 1, v / 256)
  }

  function FromLittle(b: Bytes): nat {
    if b == [] then 0 else b[0] + 256 * FromLittle(b[1..])
  }

  /** 256 to the n. */
  function Bound(n: nat): (b: nat)
    ensures b > 0
  {
    if n == 0 then 1 else 256 * Bound(n - 1)
  }

  lemma {:induction false} NumberRoundTrip(n: nat, v: nat)
    requires v < Bound(n)
    ensures FromLittle(Little(n, v)) == v
  {
    if n > 0 {
      assert v / 256 < Bound(n - 1);
      NumberRoundTrip(n - 1, v / 256);
      assert Little(n, v)[1..] == Little(n - 1, v / 256);
    }
  }

  /** Every byte sequence is the encoding of exactly one number in range. */
  lemma {:induction false} BytesRoundTrip(b: Bytes)
    ensures FromLittle(b) < Bound(|b|) && Little(|b|, FromLittle(b)) == b
  {
    if b != [] {
      BytesRoundTrip(b[1..]);
      var v := FromLittle(b);
      assert v % 256 == b[0] && v / 256 == FromLittle(b[1..]);
      assert b == [b[0]] + b[1..];
    }
  }

  lemma Bounds()
    ensures Bound(2) == TWO_16 && Bound(4) == TWO_32 && Bound(8) == TWO_64
  {
    assert Bound(1) == 256 && Bound(2) == 0x1_0000 && Bound(3) == 0x100_0000 && Bound(4) == TWO_32;
    assert Bound(5) == 0x100_0000_0000 && Bound(6) == 0x1_0000_0000_0000 && Bound(7) == 0x100_0000_0000_0000;
  }

  /** Four or eight bytes as a number of that width. */
  function U32Of(b: Bytes): (v: u32)
    requires |b| == 4
    ensures v == FromLittle(b)
  {
    BytesRoundTrip(b);
    Bounds();
    FromLittle(b)
  }

  function U64Of(b: Bytes): (v: u64)
    requires |b| == 8
    ensures v == FromLittle(b)
  {
    BytesRoundTrip(b);
    Bounds();
    FromLittle(b)
  }

  /** The bytes of a number, lowest first. */
  lemma LowestFirst(v: nat)
    ensures Little(2, v) == [v % 256, v / 0x100 % 256]
    ensures Little(4, v) == [v % 256, v / 0x100 % 256, v / 0x1_0000 % 256, v / 0x100_0000 % 256]
    ensures Little(8, v) == Little(4, v) + Little(4, v / TWO_32)
  {
    FourLow(v);
    EightInFours(v);
  }

  lemma FourLow(v: nat)
    ensures Little(2, v) == [v % 256, v / 0x100 % 256]
    ensures Little(4, v) == [v % 256, v / 0x100 % 256, v / 0x1_0000 % 256, v / 0x100_0000 % 256]
  {
    assert v / 0x100 / 0x100 == v / 0x1_0000 && v / 0x100 / 0x100 / 0x100 == v / 0x100_0000;
    assert Little(1, v / 0x100_0000) == [v / 0x100_0000 % 256];
    assert Little(2, v / 0x1_0000) == [v / 0x1_0000 % 256, v / 0x100_0000 % 256];
    assert Little(3, v / 0x100) == [v / 0x100 % 256, v / 0x1_0000 % 256, v / 0x100_0000 % 256];
    assert Little(1, v / 0x100) == [v / 0x100 % 256];
  }

  lemma {:induction false} LittleSplit(m: nat, n: nat, v: nat)
    ensures Little(m + n, v) == Little(m, v) + Little(n, v / Bound(m))
  {
    if m > 0 {
      LittleSplit(m - 1, n, v / 256);
      DivideTwice(v, Bound(m - 1));
    }
  }

  lemma EightInFours(v: nat)
    ensures Little(8, v) == Little(4, v) + Little(4, v / TWO_32)
  {
    Bounds();
    LittleSplit(4, 4, v);
  }

  // ----- Appending -----

  method AppendU16(out: Bytes, v: u16) returns (r: Bytes)
    ensures r == out + Little(2, v)
  {
    r := out + [v % 256];
    r := r + [v / 256 % 256];
  }

  method AppendU32(out: Bytes, v: u32) returns (r: Bytes)
    ensures r == out + Little(4, v)
  {
    r := out + [v % 256];
    r := r + [v / 0x100 % 256];
    r := r + [v / 0x1_0000 % 256];
    r := r + [v / 0x100_0000 % 256];
    FourLow(v);
  }

  lemma {:induction false} LittleGrows(i: nat, v: nat)
    ensures Little(i + 1, v) == Little(i, v) + [v / Bound(i) % 256]
  {
    if i > 0 {
      LittleGrows(i - 1, v / 256);
      DivideTwice(v, Bound(i - 1));
    }
  }

  lemma DivideTwice(v: nat, b: nat)
    requires b > 0
    ensures v / 256 / b == v / (256 * b)
  {
    var q := v / (256 * b);
    var r := v % (256 * b);
    assert v == q * (256 * b) + r;
    assert v / 256 == q * b + r / 256;
    assert r / 256 < b;
    QuotientIs(v / 256, b, q, r / 256);
  }

  lemma QuotientIs(x: nat, b: nat, q: nat, r: nat)
    requires x == q * b + r && r < b
    ensures x / b == q
  {
    var d: int := (x / b) as int - q as int;
    assert d * b == r - x % b by {
      assert x == x / b * b + x % b;
    }
    SmallMultiple(d, b);
  }

  /** A multiple of b between -b and b is none. */
  lemma SmallMultiple(d: int, b: int)
    requires b > 0 && -b < d * b < b
    ensures d == 0
  {
    AtLeastOnce(d, b);
  }

  lemma AtLeastOnce(d: int, b: int)
    requires b >= 0
    ensures d >= 1 ==> d * b >= b
    ensures d <= -1 ==> d * b <= -b
  {
  }

  method AppendU64(out: Bytes, v: u64) returns (r: Bytes)
    ensures r == out + Little(8, v)
  {
    r := out;
    var i := 0;
    var shift := 1;
    while i < 8
      invariant 0 <= i <= 8 && shift == Bound(i) && r == out + Little(i, v)
    {
      LittleGrows(i, v);
      r := r + [v / shift % 256];
      shift := 256 * shift;
      i := i + 1;
    }
  }

  /** Strings carry a 16-bit length, and longer ones are refused. */
  const MAX_STRING: nat := 0xFFFF

  function StringOf(s: Bytes): Bytes {
    Little(2, |s|) + s
  }

  method AppendString(out: Bytes, s: Bytes) returns (r: Result<Bytes>)
    ensures r == if |s| <= MAX_STRING then Ok(out + StringOf(s)) else Err("String too long")
    ensures r.Ok? <==> |s| < 0x1_0000
  {
    if |s| > MAX_STRING {
      return Err("String too long");
    }
    var b := AppendU16(out, |s|);
    assert b + s == out + StringOf(s);
    return Ok(b + s);
  }

  // ----- Reading -----

  /** n bytes as a number, if they are there. */
  function NumberAt(buf: Bytes, cursor: nat, n: nat): Result<nat> {
    if cursor + n <= |buf| then Ok(FromLittle(buf[cursor..cursor + n])) else Err("out of range")
  }

  function BytesAt(buf: Bytes, cursor: nat, n: nat): Result<Bytes> {
    if cursor + n <= |buf| then Ok(buf[cursor..cursor + n]) else Err("out of range")
  }

  function StringAt(buf: Bytes, cursor: nat): Result<Bytes> {
    match NumberAt(buf, cursor, 2)
    case Err(e) => Err(e)
    case Ok(len) => BytesAt(buf, cursor + 2, len)
  }

  /** A number written at the cursor is read back, whatever comes before and after. */
  lemma ReadsNumber(before: Bytes, n: nat, v: nat, after: Bytes)
    requires v < Bound(n)
    ensures NumberAt(before + Little(n, v) + after, |before|, n) == Ok(v)
  {
    var buf := before + Little(n, v) + after;
    assert buf[|before|..|before| + n] == Little(n, v);
    NumberRoundTrip(n, v);
  }

  lemma ReadsString(before: Bytes, s: Bytes, after: Bytes)
    requires |s| <= MAX_STRING
    ensures StringAt(before + StringOf(s) + after, |before|) == Ok(s)
  {
    Bounds();
    assert before + StringOf(s) + after == before + Little(2, |s|) + (s + after);
    ReadsNumber(before, 2, |s|, s + after);
    assert (before + StringOf(s) + after)[|before| + 2..|before| + 2 + |s|] == s;
  }

  method ReadU16(buf: Bytes, cursor: nat) returns (r: Result<nat>, next: nat)
    ensures r == NumberAt(buf, cursor, 2) && next == if r.Ok? then cursor + 2 else cursor
    ensures r.Ok? ==> r.value < TWO_16
  {
    if cursor + 2 > |buf| {
      return Err("out of range"), cursor;
    }
    var b := buf[cursor..cursor + 2];
    BytesRoundTrip(b);
    Bounds();
    assert FromLittle(b) == (b[0] as int) + 256 * (b[1] as int) by {
      assert b[1..][1..] == [];
    }
    var lo: int, hi: int := buf[cursor], buf[cursor + 1];
    return Ok(lo + 256 * hi), cursor + 2;
  }

  method ReadU32(buf: Bytes, cursor: nat) returns (r: Result<nat>, next: nat)
    ensures r == NumberAt(buf, cursor, 4) && next == if r.Ok? then cursor + 4 else cursor
    ensures r.Ok? ==> r.value < TWO_32
  {
    if cursor + 4 > |buf| {
      return Err("out of range"), cursor;
    }
    var b := buf[cursor..cursor + 4];
    BytesRoundTrip(b);
    Bounds();
    FourBytes(b);
    var b0: int, b1: int, b2: int, b3: int := buf[cursor], buf[cursor + 1], buf[cursor + 2], buf[cursor + 3];
    return Ok(b0 + 0x100 * b1 + 0x1_0000 * b2 + 0x100_0000 * b3), cursor + 4;
  }

  lemma FourBytes(b: Bytes)
    requires |b| == 4
    ensures FromLittle(b)
            == (b[0] as int) + 0x100 * (b[1] as int) + 0x1_0000 * (b[2] as int) + 0x100_0000 * (b[3] as int)
  {
    var c := b[1..];
    var d := c[1..];
    var e := d[1..];
    assert e[1..] == [];
    assert FromLittle(e) == e[0] && FromLittle(d) == (d[0] as int) + 256 * FromLittle(e)
           && FromLittle(c) == (c[0] as int) + 256 * FromLittle(d);
  }

  method ReadU64(buf: Bytes, cursor: nat) returns (r: Result<nat>, next: nat)
    ensures r == NumberAt(buf, cursor, 8) && next == if r.Ok? then cursor + 8 else cursor
    ensures r.Ok? ==> r.value < TWO_64
  {
    if cursor + 8 > |buf| {
      return Err("out of range"), cursor;
    }
    var value: nat, shift: nat, i := 0, 1, 0;
    ghost var b := buf[cursor..cursor + 8];
    BytesRoundTrip(b);
    Bounds();
    while i < 8
      invariant 0 <= i <= 8 && shift == Bound(i) && value == FromLittle(b[..i])
    {
      FromLittleGrows(b[..i], b[i]);
      assert b[..i + 1] == b[..i] + [b[i]];
      var x: int := buf[cursor + i];
      value := value + x * shift;
      shift := 256 * shift;
      i := i + 1;
    }
    assert b[..8] == b;
    return Ok(value), cursor + 8;
  }

  lemma {:induction false} FromLittleGrows(b: Bytes, x: u8)
    ensures FromLittle(b + [x]) == FromLittle(b) + (x as int) * Bound(|b|)
  {
    if b == [] {
      assert [x][1..] == [];
    } else {
      FromLittleGrows(b[1..], x);
      assert (b + [x])[1..] == b[1..] + [x];
      var y: int := x;
      assert 256 * (y * Bound(|b| - 1)) == y * (256 * Bound(|b| - 1));
    }
  }

  method ReadString(buf: Bytes, cursor: nat) returns (r: Result<Bytes>, next: nat)
    ensures r == StringAt(buf, cursor) && (r.Ok? ==> next == cursor + 2 + |r.value|)
  {
    var len, c := ReadU16(buf, cursor);
    if len.Err? {
      return Err(len.error), c;
    }
    if c + len.value > |buf| {
      return Err("out of range"), c;
    }
    return Ok(buf[c..c + len.value]), c + len.value;
  }
}
