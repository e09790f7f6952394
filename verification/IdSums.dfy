/**
  Range fingerprints (core/src/sync/negentropy/fingerprint.rs). Ids are compared
  bytewise but summed as little-endian integers modulo 2^256, kept in four u64
  limbs; a fingerprint hashes the sum and the element count.
 */
module IdSums {
  import opened Base
  import opened Items
  import Varint

  /** 2^256. */
  const MODULUS: nat := U64_LIMIT * U64_LIMIT * U64_LIMIT * U64_LIMIT

  type Limbs = s: seq<u64> | |s| == 4 witness [0, 0, 0, 0]

  /** The integer four little-endian limbs denote. */
  function Value(s: Limbs): (v: nat)
    ensures v < MODULUS
  {
    s[0] + U64_LIMIT * (s[1] + U64_LIMIT * (s[2] + U64_LIMIT * s[3]))
  }

  function LimbWeight(i: nat): nat {
    if i == 0 then 1 else U64_LIMIT * LimbWeight(i - 1)
  }

  /** The contribution of the limbs below `i`. */
  function Low(s: Limbs, i: nat): nat
    requires i <= 4
  {
    if i == 0 then 0 else Low(s, i - 1) + s[i - 1] * LimbWeight(i - 1)
  }

  lemma LowIsValue(s: Limbs)
    ensures Low(s, 4) == Value(s) && LimbWeight(4) == MODULUS
  {
    assert LimbWeight(1) == U64_LIMIT && LimbWeight(2) == U64_LIMIT * U64_LIMIT;
    assert LimbWeight(3) == U64_LIMIT * U64_LIMIT * U64_LIMIT;
    assert Low(s, 1) == Low(s, 0) + s[0] * LimbWeight(0);
    assert Low(s, 2) == Low(s, 1) + s[1] * LimbWeight(1);
    assert Low(s, 3) == Low(s, 2) + s[2] * LimbWeight(2);
    assert Low(s, 4) == Low(s, 3) + s[3] * LimbWeight(3);
  }

  lemma {:induction false} LowPrefix(s: Limbs, t: Limbs, i: nat)
    requires i <= 4 && forall j :: 0 <= j < i ==> s[j] == t[j]
    ensures Low(s, i) == Low(t, i)
  {
    if i > 0 {
      LowPrefix(s, t, i - 1);
    }
  }

  lemma CarryStep(carry: int, x: int, y: int, r: int, carry': int, w: int)
    requires r + carry' * U64_LIMIT == x + y + carry
    ensures r * w + carry' * (U64_LIMIT * w) == x * w + y * w + carry * w
  {
    calc {
      r * w + carry' * (U64_LIMIT * w);
      (r + carry' * U64_LIMIT) * w;
      (x + y + carry) * w;
    }
  }

  /** Limb-wise addition with a carry chain; a final carry falls off the end. */
  method AddLimbs(self: Limbs, other: Limbs) returns (sum: Limbs)
    ensures Value(sum) == (Value(self) + Value(other)) % MODULUS
  {
    sum := self;
    var carry := 0;
    var i := 0;
    while i < 4
      invariant 0 <= i <= 4 && 0 <= carry <= 1
      invariant forall j :: i <= j < 4 ==> sum[j] == self[j]
      invariant Low(sum, i) + carry * LimbWeight(i) == Low(self, i) + Low(other, i)
    {
      var x: int, y: int := sum[i], other[i];
      var s := x + y;
      var c1 := s >= U64_LIMIT;
      s := if c1 then s - U64_LIMIT else s;
      var t := s + carry;
      var c2 := t >= U64_LIMIT;
      t := if c2 then t - U64_LIMIT else t;
      var carry' := if c1 || c2 then 1 else 0;
      CarryStep(carry, x, y, t, carry', LimbWeight(i));
      ghost var before := sum;
      sum, carry := sum[i := t], carry';
      LowPrefix(before, sum, i);
      i := i + 1;
    }
    LowIsValue(sum);
    LowIsValue(self);
    LowIsValue(other);
    FinalCarry(Value(sum), carry, Value(self) + Value(other));
  }

  lemma FinalCarry(v: nat, carry: int, total: nat)
    requires v + carry * MODULUS == total && v < MODULUS && 0 <= carry <= 1
    ensures v == total % MODULUS
  {
  }

  /** A little-endian octet string as an integer. */
  function LittleEndian(s: seq<byte>): nat {
    if s == [] then 0 else s[0] + 256 * LittleEndian(s[1..])
  }

  /** The `k` low little-endian octets of `n`. */
  function LeBytes(n: nat, k: nat): (s: seq<byte>)
    ensures |s| == k
    decreases n, k
  {
    if k == 0 then [] else [n % 256] + LeBytes(n / 256, k - 1)
  }

  function Pow256(k: nat): nat {
    if k == 0 then 1 else 256 * Pow256(k - 1)
  }

  /** `v` shifted up by `k` octets. */
  function ShiftUp(v: nat, k: nat): nat {
    if k == 0 then v else 256 * ShiftUp(v, k - 1)
  }

  lemma {:induction false} LittleEndianConcat(a: seq<byte>, b: seq<byte>)
    ensures LittleEndian(a + b) == LittleEndian(a) + ShiftUp(LittleEndian(b), |a|)
  {
    if a == [] {
      assert a + b == b;
    } else {
      assert (a + b)[1..] == a[1..] + b;
      LittleEndianConcat(a[1..], b);
    }
  }

  lemma ShiftLimb(v: nat)
    ensures ShiftUp(v, 8) == U64_LIMIT * v
  {
    assert ShiftUp(v, 2) == 256 * ShiftUp(v, 1) == 65536 * v;
    assert ShiftUp(v, 4) == 256 * ShiftUp(v, 3) == 65536 * ShiftUp(v, 2) == 0x1_0000_0000 * v;
    assert ShiftUp(v, 6) == 256 * ShiftUp(v, 5) == 65536 * ShiftUp(v, 4);
    assert ShiftUp(v, 8) == 256 * ShiftUp(v, 7) == 65536 * ShiftUp(v, 6) == 0x1_0000_0000 * ShiftUp(v, 4);
  }

  lemma {:induction false} LittleEndianBound(s: seq<byte>)
    ensures LittleEndian(s) < Pow256(|s|)
  {
    if s != [] {
      LittleEndianBound(s[1..]);
    }
  }

  /** Octets and integers correspond one to one at a fixed width. */
  lemma {:induction false} LeBytesOfValue(s: seq<byte>)
    ensures LeBytes(LittleEndian(s), |s|) == s
  {
    if s != [] {
      LeBytesOfValue(s[1..]);
      var rest := LittleEndian(s[1..]);
      assert LittleEndian(s) == s[0] + 256 * rest;
      LowDigit(s[0], rest);
      assert s == [s[0]] + s[1..];
    }
  }

  lemma LowDigit(d: byte, rest: nat)
    ensures (d + 256 * rest) % 256 == d && (d + 256 * rest) / 256 == rest
  {
  }

  lemma {:induction false} ValueOfLeBytes(n: nat, k: nat)
    requires n < Pow256(k)
    ensures LittleEndian(LeBytes(n, k)) == n
  {
    if k > 0 {
      ValueOfLeBytes(n / 256, k - 1);
      assert LeBytes(n, k)[1..] == LeBytes(n / 256, k - 1);
    }
  }

  lemma SplitLimb(s: seq<byte>)
    requires |s| >= 8
    ensures LittleEndian(s) == LittleEndian(s[..8]) + U64_LIMIT * LittleEndian(s[8..])
    ensures LittleEndian(s[..8]) < U64_LIMIT
  {
    assert Pow256(8) == U64_LIMIT;
    assert s == s[..8] + s[8..];
    LittleEndianConcat(s[..8], s[8..]);
    ShiftLimb(LittleEndian(s[8..]));
    LittleEndianBound(s[..8]);
  }

  lemma Chunks(s: seq<byte>)
    requires |s| == 32
    ensures LittleEndian(s)
            == LittleEndian(s[..8]) + U64_LIMIT * (LittleEndian(s[8..16]) + U64_LIMIT * (LittleEndian(s[16..24]) + U64_LIMIT * LittleEndian(s[24..])))
    ensures LittleEndian(s[..8]) < U64_LIMIT && LittleEndian(s[8..16]) < U64_LIMIT
    ensures LittleEndian(s[16..24]) < U64_LIMIT && LittleEndian(s[24..]) < U64_LIMIT
  {
    var s1, s2, s3 := s[8..], s[16..], s[24..];
    assert s1[..8] == s[8..16] && s1[8..] == s2 && s2[..8] == s[16..24] && s2[8..] == s3 && s3[..8] == s3;
    SplitLimb(s);
    SplitLimb(s1);
    SplitLimb(s2);
    SplitLimb(s3);
  }

  function LimbsOfId(id: Id): Limbs {
    Chunks(id);
    [LittleEndian(id[..8]), LittleEndian(id[8..16]), LittleEndian(id[16..24]), LittleEndian(id[24..])]
  }

  /** Adds one id, read as a little-endian integer. */
  method AddId(self: Limbs, id: Id) returns (sum: Limbs)
    ensures Value(sum) == (Value(self) + LittleEndian(id)) % MODULUS
  {
    Chunks(id);
    sum := AddLimbs(self, LimbsOfId(id));
  }

  /** Two's-complement negation: complement every limb, then add one. */
  method Negate(self: Limbs) returns (neg: Limbs)
    ensures Value(neg) == (MODULUS - Value(self)) % MODULUS
  {
    neg := self;
    for i := 0 to 4
      invariant forall j :: 0 <= j < i ==> neg[j] == U64_MAX - self[j]
      invariant forall j :: i <= j < 4 ==> neg[j] == self[j]
    {
      neg := neg[i := U64_MAX - neg[i]];
    }
    assert Value(neg) == MODULUS - 1 - Value(self);
    var one: Id := [1] + seq(31, _ => 0);
    LittleEndianOne();
    neg := AddId(neg, one);
  }

  lemma {:induction false} LittleEndianZeros(k: nat)
    ensures LittleEndian(seq(k, _ => 0)) == 0
  {
    if k > 0 {
      LittleEndianZeros(k - 1);
      assert seq(k, _ => 0)[1..] == seq(k - 1, _ => 0);
    }
  }

  lemma LittleEndianOne()
    ensures LittleEndian([1] + seq(31, _ => 0)) == 1
  {
    LittleEndianZeros(31);
    assert ([1] + seq(31, _ => 0))[1..] == seq(31, _ => 0);
  }

  /** `u64::to_le_bytes`. */
  function LimbLe(n: u64): (s: seq<byte>)
    ensures |s| == 8 && LittleEndian(s) == n
  {
    assert Pow256(8) == U64_LIMIT;
    ValueOfLeBytes(n, 8);
    LeBytes(n, 8)
  }

  /** The sum as 32 little-endian octets, limb by limb. */
  function ToLeBytes(s: Limbs): Id {
    LimbLe(s[0]) + LimbLe(s[1]) + LimbLe(s[2]) + LimbLe(s[3])
  }

  lemma ToLeBytesIsValue(s: Limbs)
    ensures ToLeBytes(s) == LeBytes(Value(s), 32)
  {
    hide LittleEndian, LeBytes, LimbLe;
    var a, b, c, d := LimbLe(s[0]), LimbLe(s[1]), LimbLe(s[2]), LimbLe(s[3]);
    FourChunks(a, b, c, d);
    LeBytesOfValue(a + b + c + d);
  }

  lemma FourChunks(a: seq<byte>, b: seq<byte>, c: seq<byte>, d: seq<byte>)
    requires |a| == |b| == |c| == |d| == 8
    ensures LittleEndian(a + b + c + d)
            == LittleEndian(a) + U64_LIMIT * (LittleEndian(b) + U64_LIMIT * (LittleEndian(c) + U64_LIMIT * LittleEndian(d)))
  {
    hide LittleEndian;
    var s := a + b + c + d;
    assert s[..8] == a && s[8..16] == b && s[16..24] == c && s[24..] == d;
    Chunks(s);
  }

  /** SHA-256, kept abstract. */
  type Hash = seq<byte> -> Id

  /** Sixteen octets of the hash of sum and count. */
  function Fingerprint(hash: Hash, sum: Limbs, count: nat): seq<byte> {
    hash(ToLeBytes(sum) + Varint.Encode(count))[..16]
  }

  /** The exact sum of the ids of a range. */
  function SumIds(s: seq<Item>): nat {
    if s == [] then 0 else SumIds(s[..|s| - 1]) + LittleEndian(s[|s| - 1].id)
  }

  lemma {:induction false} SumIdsConcat(a: seq<Item>, b: seq<Item>)
    ensures SumIds(a + b) == SumIds(a) + SumIds(b)
  {
    if b == [] {
      assert a + b == a;
    } else {
      var n := |b| - 1;
      assert (a + b)[..|a + b| - 1] == a + b[..n];
      SumIdsConcat(a, b[..n]);
    }
  }

  /** The fingerprint a range of items has, whatever computes it. */
  function FingerprintOf(hash: Hash, s: seq<Item>): (f: seq<byte>)
    ensures |f| == 16
  {
    hash(LeBytes(SumIds(s) % MODULUS, 32) + Varint.Encode(|s|))[..16]
  }

  lemma FingerprintIsOf(hash: Hash, sum: Limbs, s: seq<Item>)
    requires Value(sum) == SumIds(s) % MODULUS
    ensures Fingerprint(hash, sum, |s|) == FingerprintOf(hash, s)
  {
    ToLeBytesIsValue(sum);
  }

  /**
    Equal fingerprints mean the same number of items and the same sum of ids
    modulo 2^256, or two different inputs whose digests agree in sixteen octets.
   */
  lemma FingerprintTells(hash: Hash, a: seq<Item>, b: seq<Item>)
    requires |a| < U64_LIMIT && |b| < U64_LIMIT && FingerprintOf(hash, a) == FingerprintOf(hash, b)
    ensures || (|a| == |b| && SumIds(a) % MODULUS == SumIds(b) % MODULUS)
            || exists x, y :: x != y && hash(x)[..16] == hash(y)[..16]
  {
    hide SumIds, LeBytes, Varint.Encode;
    var m, n := SumIds(a) % MODULUS, SumIds(b) % MODULUS;
    var x, y := LeBytes(m, 32) + Varint.Encode(|a|), LeBytes(n, 32) + Varint.Encode(|b|);
    if x == y {
      InputTells(m, n, |a|, |b|);
    }
  }

  /** What is hashed determines the sum and the count. */
  lemma InputTells(m: nat, n: nat, j: u64, k: u64)
    requires m < MODULUS && n < MODULUS && LeBytes(m, 32) + Varint.Encode(j) == LeBytes(n, 32) + Varint.Encode(k)
    ensures m == n && j == k
  {
    hide LeBytes, LittleEndian, Varint.Encode, Varint.ReadSpec, Pow256;
    var x := LeBytes(m, 32) + Varint.Encode(j);
    assert LeBytes(m, 32) == x[..32] == LeBytes(n, 32);
    assert Varint.Encode(j) == x[32..] == Varint.Encode(k);
    ModulusIsPow();
    ValueOfLeBytes(m, 32);
    ValueOfLeBytes(n, 32);
    assert Varint.Encode(j) + [] == Varint.Encode(k) + [];
    Varint.RoundTrip(j, []);
    Varint.RoundTrip(k, []);
  }

  lemma ModulusIsPow()
    ensures Pow256(32) == MODULUS
  {
    Pow256Up(8);
    Pow256Up(16);
    Pow256Up(24);
    assert Pow256(8) == U64_LIMIT;
  }

  lemma Pow256Up(k: nat)
    ensures Pow256(k + 8) == U64_LIMIT * Pow256(k)
  {
    assert Pow256(k + 2) == 0x1_0000 * Pow256(k);
    assert Pow256(k + 4) == 0x1_0000 * Pow256(k + 2);
    assert Pow256(k + 6) == 0x1_0000 * Pow256(k + 4);
    assert Pow256(k + 8) == 0x1_0000 * Pow256(k + 6);
  }

  lemma ModUnique(x: nat, m: nat, q: nat, r: nat)
    requires x == m * q + r && r < m
    ensures x % m == r
  {
    var q', r' := x / m, x % m;
    assert m * (q' - q) == r - r';
    MulStep(m, q' - q);
  }

  lemma MulStep(m: nat, d: int)
    ensures d >= 1 ==> m * d >= m
    ensures d <= -1 ==> m * d <= 0 - m
  {
  }

  lemma ModPlus(a: nat, b: nat, m: nat)
    requires m > 0
    ensures (a % m + b) % m == (a + b) % m
  {
    var q, u := a / m, (a % m + b) / m;
    assert a + b == m * (q + u) + (a % m + b) % m;
    ModUnique(a + b, m, q + u, (a % m + b) % m);
  }

  /** Reducing early does not change a sum. */
  lemma ModAdd(a: nat, b: nat)
    ensures (a % MODULUS + b) % MODULUS == (a + b) % MODULUS
    ensures (a % MODULUS + b % MODULUS) % MODULUS == (a + b) % MODULUS
  {
    ModPlus(a, b, MODULUS);
    ModPlus(b, a % MODULUS, MODULUS);
  }
}
