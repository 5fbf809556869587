/** The key permutation of the D-HARHT table and the three ways the table cuts a
    scattered key up: shard number, front-directory prefix and radix bytes. */
module Scattering {

  type u64 = x: int | 0 <= x < 0x1_0000_0000_0000_0000
  type byte = x: int | 0 <= x < 256
  type Path = seq<byte>

  const WORD: nat := 0x1_0000_0000_0000_0000

  /** `s >> n`, one bit at a time. */
  function Shr(s: nat, n: nat): nat {
    if n == 0 then s else Shr(s, n - 1) / 2
  }

  /** Bitwise exclusive or of two numbers. */
  function Xor(a: nat, b: nat): nat {
    if a == 0 && b == 0 then 0 else (a % 2 + b % 2) % 2 + 2 * Xor(a / 2, b / 2)
  }

  lemma {:induction false} XorBound(a: nat, b: nat, n: nat)
    requires a < Pow2(n) && b < Pow2(n)
    ensures Xor(a, b) < Pow2(n)
  {
    if n > 0 {
      XorBound(a / 2, b / 2, n - 1);
    }
  }

  lemma {:induction false} ShrShrinks(s: nat, n: nat)
    ensures Shr(s, n) <= s
  {
    if n > 0 {
      ShrShrinks(s, n - 1);
    }
  }

  // ----- the permutation: three xor-shifts around two odd multiplications -----

  /** `x ^ (x >> n)` on 64-bit words. */
  function XorShift(x: u64, n: nat): u64 {
    ShrShrinks(x, n);
    Pow2Values();
    XorBound(x, Shr(x, n), 64);
    Xor(x, Shr(x, n))
  }

  /** `x.wrapping_mul(c)`. */
  function WrappingMul(x: u64, c: u64): u64 {
    (x * c) % WORD
  }

  function Scatter(key: u64): u64 {
    XorShift(
      WrappingMul(
        XorShift(WrappingMul(XorShift(key, 30), 0xbf58_476d_1ce4_e5b9), 27),
        0x94d0_49bb_1331_11eb),
      31)
  }

  lemma {:induction false} ShrOfHalf(s: nat, n: nat)
    ensures Shr(s / 2, n) == Shr(s, n + 1) == Shr(s, n) / 2
  {
    if n > 0 {
      ShrOfHalf(s, n - 1);
    }
  }

  /** An xor-shift can be undone from the top bit down. */
  lemma {:induction false} XorShiftInjective(x: nat, y: nat, n: nat)
    requires n > 0 && Xor(x, Shr(x, n)) == Xor(y, Shr(y, n))
    ensures x == y
    decreases x + y
  {
    hide Xor, Shr;
    if x != 0 || y != 0 {
      var sx, sy := Shr(x, n), Shr(y, n);
      ShrOfHalf(x, n - 1);
      ShrOfHalf(y, n - 1);
      ShrOfHalf(x, n);
      ShrOfHalf(y, n);
      XorHalves(x, sx);
      XorHalves(y, sy);
      XorShiftInjective(x / 2, y / 2, n);
      assert sx == sy;
      SameParity(x, y, sx);
    }
  }

  lemma SameParity(x: nat, y: nat, s: nat)
    requires x / 2 == y / 2 && (x % 2 + s % 2) % 2 == (y % 2 + s % 2) % 2
    ensures x == y
  {
  }

  lemma XorHalves(a: nat, b: nat)
    ensures Xor(a, b) / 2 == Xor(a / 2, b / 2)
    ensures Xor(a, b) % 2 == (a % 2 + b % 2) % 2
  {
  }

  /** Multiplying by an odd number is undone by its inverse modulo 2^64. */
  lemma MulInjective(x: u64, y: u64, c: u64, inverse: u64)
    requires c * inverse % WORD == 1
    requires WrappingMul(x, c) == WrappingMul(y, c)
    ensures x == y
  {
    MulUndone(x, c, inverse);
    MulUndone(y, c, inverse);
  }

  lemma MulUndone(x: u64, c: u64, inverse: u64)
    requires c * inverse % WORD == 1
    ensures WrappingMul(WrappingMul(x, c), inverse) == x
  {
    var q := x * c / WORD;
    var k := c * inverse / WORD;
    calc {
      WrappingMul(x, c) * inverse;
      (x * c - q * WORD) * inverse;
      x * (c * inverse) - (q * inverse) * WORD;
      x * (k * WORD + 1) - (q * inverse) * WORD;
      x + (x * k - q * inverse) * WORD;
    }
    AddMultiple(x, x * k - q * inverse);
  }

  lemma AddMultiple(x: u64, k: int)
    ensures (x + k * WORD) % WORD == x
  {
  }

  /** The scatter is injective, hence a permutation of the 64-bit keys. */
  lemma ScatterInjective(a: u64, b: u64)
    requires Scatter(a) == Scatter(b)
    ensures a == b
  {
    hide Xor, Shr, WrappingMul;
    var a1, b1 := XorShift(a, 30), XorShift(b, 30);
    var a2, b2 := WrappingMul(a1, 0xbf58_476d_1ce4_e5b9), WrappingMul(b1, 0xbf58_476d_1ce4_e5b9);
    var a3, b3 := XorShift(a2, 27), XorShift(b2, 27);
    var a4, b4 := WrappingMul(a3, 0x94d0_49bb_1331_11eb), WrappingMul(b3, 0x94d0_49bb_1331_11eb);
    XorShiftInjective(a4, b4, 31);
    MulInjective(a3, b3, 0x94d0_49bb_1331_11eb, 0x3196_42b2_d24d_8ec3);
    XorShiftInjective(a2, b2, 27);
    MulInjective(a1, b1, 0xbf58_476d_1ce4_e5b9, 0x96de_1b17_3f11_9089);
    XorShiftInjective(a, b, 30);
  }

  // ----- the inverse permutation; the table itself never needs it -----

  function UnXorShift(y: nat, n: nat): nat
    requires n > 0
  {
    if y == 0 then 0
    else
      var h := UnXorShift(y / 2, n);
      2 * h + (y % 2 + Shr(h, n - 1) % 2) % 2
  }

  lemma {:induction false} XorShiftUndone(y: nat, n: nat, bits: nat)
    requires n > 0 && y < Pow2(bits)
    ensures var x := UnXorShift(y, n); x < Pow2(bits) && Xor(x, Shr(x, n)) == y
    decreases y
  {
    hide Xor, Shr;
    var x := UnXorShift(y, n);
    if y == 0 {
      ShrShrinks(0, n);
      XorHalves(0, 0);
      XorBound(0, 0, 0);
    } else {
      var h := UnXorShift(y / 2, n);
      assert y / 2 < Pow2(bits - 1) && Pow2(bits) == 2 * Pow2(bits - 1);
      XorShiftUndone(y / 2, n, bits - 1);
      BitOnTop(h, y % 2, Shr(h, n - 1));
      ShrOfHalf(x, n - 1);
      ShrOfHalf(x, n);
      XorHalves(x, Shr(x, n));
      SameWord(Xor(x, Shr(x, n)), y);
    }
  }

  lemma BitOnTop(h: nat, bit: nat, s: nat)
    requires bit < 2
    ensures var x := 2 * h + (bit + s % 2) % 2; x / 2 == h && (x % 2 + s % 2) % 2 == bit
  {
  }

  lemma SameWord(a: nat, b: nat)
    requires a / 2 == b / 2 && a % 2 == b % 2
    ensures a == b
  {
  }

  function UndoXorShift(y: u64, n: nat): (x: u64)
    requires n > 0
    ensures XorShift(x, n) == y
  {
    Pow2Values();
    XorShiftUndone(y, n, 64);
    UnXorShift(y, n)
  }

  function Unscatter(s: u64): u64 {
    UndoXorShift(
      WrappingMul(
        UndoXorShift(WrappingMul(UndoXorShift(s, 31), 0x3196_42b2_d24d_8ec3), 27),
        0x96de_1b17_3f11_9089),
      30)
  }

  /** The scatter is a permutation of the 64-bit keys: it has a two-sided inverse. */
  lemma ScatterIsPermutation(s: u64)
    ensures Scatter(Unscatter(s)) == s
    ensures Unscatter(Scatter(s)) == s
  {
    ScatterOfUnscatter(s);
    ScatterOfUnscatter(Scatter(s));
    ScatterInjective(Unscatter(Scatter(s)), s);
  }

  lemma ScatterOfUnscatter(s: u64)
    ensures Scatter(Unscatter(s)) == s
  {
    hide Xor, Shr, WrappingMul, XorShift, UndoXorShift, UnXorShift;
    var y4 := UndoXorShift(s, 31);
    MulUndone(y4, 0x3196_42b2_d24d_8ec3, 0x94d0_49bb_1331_11eb);
    var y3 := WrappingMul(y4, 0x3196_42b2_d24d_8ec3);
    var y2 := UndoXorShift(y3, 27);
    MulUndone(y2, 0x96de_1b17_3f11_9089, 0xbf58_476d_1ce4_e5b9);
  }

  // ----- cutting a scattered key -----

  /** The byte the tree branches on at `depth`; the key has only eight. */
  function RadixByte(s: u64, depth: nat): byte {
    if depth >= 8 then 0 else Shr(s, (7 - depth) * 8) % 256
  }

  function FrontPrefix(s: u64, bits: nat): nat
    requires bits <= 64
  {
    Shr(s, 64 - bits)
  }

  /** `trailing_zeros` of a power of two up to 256. */
  function Log2(shards: nat): nat
  {
    if shards <= 1 then 0 else 1 + Log2(shards / 2)
  }

  predicate ShardCountOk(shards: nat) {
    shards in {1, 2, 4, 8, 16, 32, 64, 128, 256}
  }

  function ShardOf(s: u64, shards: nat): (id: nat)
    requires ShardCountOk(shards)
    ensures id < shards
  {
    if shards == 1 then 0 else Shr(s, 64 - Log2(shards)) % shards
  }

  /** The bytes at depths 1..n: the route of `key` from a shard's root. */
  function PathOf(key: u64, n: nat): (p: Path)
    ensures |p| == n
  {
    seq(n, i requires 0 <= i < n => RadixByte(Scatter(key), i + 1))
  }

  function Snoc(p: Path, r: byte): Path { p + [r] }

  lemma PathSnoc(key: u64, n: nat)
    ensures PathOf(key, n + 1) == Snoc(PathOf(key, n), RadixByte(Scatter(key), n + 1))
  {
  }

  lemma PathPrefix(key: u64, m: nat, n: nat)
    requires m <= n
    ensures PathOf(key, n)[..m] == PathOf(key, m)
  {
  }

  lemma {:induction false} ShrAgree(s: nat, t: nat, m: nat, n: nat)
    requires m <= n && Shr(s, m) == Shr(t, m)
    ensures Shr(s, n) == Shr(t, n)
    decreases n - m
  {
    if m < n {
      ShrAgree(s, t, m + 1, n);
    }
  }

  lemma ShrByte(s: nat, n: nat)
    ensures Shr(s, n + 8) == Shr(s, n) / 256
  {
    var x := Shr(s, n);
    assert Shr(s, n + 1) == x / 2;
    assert Shr(s, n + 2) == x / 2 / 2;
    assert Shr(s, n + 3) == x / 2 / 2 / 2;
    assert Shr(s, n + 4) == x / 2 / 2 / 2 / 2;
    assert Shr(s, n + 5) == x / 2 / 2 / 2 / 2 / 2;
    assert Shr(s, n + 6) == x / 2 / 2 / 2 / 2 / 2 / 2;
    assert Shr(s, n + 7) == x / 2 / 2 / 2 / 2 / 2 / 2 / 2;
  }

  /** Agreeing on the bits above a byte and on the byte is agreeing one byte further down. */
  lemma ByteStep(s: u64, t: u64, depth: nat)
    requires depth < 8 && RadixByte(s, depth) == RadixByte(t, depth)
    requires Shr(s, (7 - depth) * 8 + 8) == Shr(t, (7 - depth) * 8 + 8)
    ensures Shr(s, (7 - depth) * 8) == Shr(t, (7 - depth) * 8)
  {
    ShrByte(s, (7 - depth) * 8);
    ShrByte(t, (7 - depth) * 8);
  }

  lemma {:induction false} BytesAgree(s: u64, t: u64, depth: nat)
    requires 1 <= depth <= 8 && Shr(s, 56) == Shr(t, 56)
    requires forall d :: 1 <= d < depth ==> RadixByte(s, d) == RadixByte(t, d)
    ensures Shr(s, (8 - depth) * 8) == Shr(t, (8 - depth) * 8)
  {
    if depth > 1 {
      BytesAgree(s, t, depth - 1);
      ByteStep(s, t, depth - 1);
    }
  }

  /** Keys with the same top byte and the same seven radix bytes are the same key. */
  lemma RouteDeterminesKey(a: u64, b: u64)
    requires Shr(Scatter(a), 56) == Shr(Scatter(b), 56)
    requires PathOf(a, 7) == PathOf(b, 7)
    ensures a == b
  {
    hide Scatter;
    forall d | 1 <= d < 8
      ensures RadixByte(Scatter(a), d) == RadixByte(Scatter(b), d)
    {
      assert PathOf(a, 7)[d - 1] == PathOf(b, 7)[d - 1];
    }
    BytesAgree(Scatter(a), Scatter(b), 8);
    ScatterInjective(a, b);
  }

  lemma {:induction false} ShrBound(s: nat, n: nat, bound: nat)
    requires s < Pow2(n) * bound
    ensures Shr(s, n) < bound
    decreases n
  {
    if n > 0 {
      assert Pow2(n) * bound == Pow2(n - 1) * (2 * bound);
      ShrBound(s, n - 1, 2 * bound);
    }
  }

  function Pow2(n: nat): (r: nat)
    ensures r > 0
  {
    if n == 0 then 1 else 2 * Pow2(n - 1)
  }

  lemma {:induction false} Pow2Add(m: nat, n: nat)
    ensures Pow2(m + n) == Pow2(m) * Pow2(n)
  {
    if m > 0 {
      Pow2Add(m - 1, n);
      assert Pow2(m + n) == 2 * Pow2(m - 1 + n);
    }
  }

  lemma Pow2Values()
    ensures Pow2(8) == 256 && Pow2(16) == 0x1_0000 && Pow2(20) == 0x10_0000
    ensures Pow2(32) == 0x1_0000_0000 && Pow2(64) == 0x1_0000_0000_0000_0000
  {
    assert Pow2(4) == 16;
    Pow2Add(4, 4);
    Pow2Add(8, 8);
    Pow2Add(16, 4);
    Pow2Add(16, 16);
    Pow2Add(32, 32);
  }

  lemma PrefixBound(s: u64, bits: nat)
    requires bits <= 64
    ensures FrontPrefix(s, bits) < Pow2(bits)
  {
    Pow2Values();
    Pow2Add(64 - bits, bits);
    ShrBound(s, 64 - bits, Pow2(bits));
  }

  lemma Log2Bound(shards: nat)
    requires ShardCountOk(shards)
    ensures Log2(shards) <= 8
    ensures shards == 256 ==> Log2(shards) == 8
  {
    assert Log2(1) == 0;
    assert Log2(2) == 1;
    assert Log2(4) == 2;
    assert Log2(8) == 3;
    assert Log2(16) == 4;
    assert Log2(32) == 5;
    assert Log2(64) == 6;
    assert Log2(128) == 7;
    assert Log2(256) == 8;
  }

  /** All keys of one directory prefix lie in one shard. */
  lemma PrefixDeterminesShard(s: u64, t: u64, bits: nat, shards: nat)
    requires 8 <= bits <= 64 && ShardCountOk(shards)
    requires FrontPrefix(s, bits) == FrontPrefix(t, bits)
    ensures ShardOf(s, shards) == ShardOf(t, shards)
  {
    Log2Bound(shards);
    ShrAgree(s, t, 64 - bits, 64 - Log2(shards));
  }

  /** With 256 shards the shard number is the whole top byte, so two keys of one
      shard that take the same seven-byte route are the same key. */
  lemma FullShardsSeparate(a: u64, b: u64)
    requires ShardOf(Scatter(a), 256) == ShardOf(Scatter(b), 256)
    requires PathOf(a, 7) == PathOf(b, 7)
    ensures a == b
  {
    hide Scatter, Shr, PathOf;
    FullShardIsTopByte(Scatter(a));
    FullShardIsTopByte(Scatter(b));
    RouteDeterminesKey(a, b);
  }

  /** With 256 shards the shard is the top byte. */
  lemma FullShardIsTopByte(s: u64)
    ensures ShardOf(s, 256) == Shr(s, 56)
  {
    hide Shr, Pow2;
    assert Log2(256) == 8;
    Pow2Values();
    Pow2Add(56, 8);
    ShrBound(s, 56, 256);
  }
}
