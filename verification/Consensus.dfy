/** Proof-of-work arithmetic: graph weights, scaled difficulties and the bit packing of a proof. */
module Consensus {
  import opened Basics

  const DEFAULT_MIN_EDGE_BITS := 31
  const SECOND_POW_EDGE_BITS := 29
  const BASE_EDGE_BITS := 24
  const PROOF_SIZE := 42
  const WEEK_HEIGHT := 7 * 24 * 60
  const YEAR_HEIGHT := 52 * WEEK_HEIGHT
  const U64_RANGE := 0x1_0000_0000_0000_0000
  const U128_RANGE := U64_RANGE * U64_RANGE

  lemma {:induction false} Pow2Monotone(m: nat, n: nat)
    requires m <= n
    ensures Pow2(m) <= Pow2(n)
    decreases n
  {
    if m < n { Pow2Monotone(m, n - 1); }
  }

  lemma {:induction false} Pow2Sum(m: nat, n: nat)
    ensures Pow2(m + n) == Pow2(m) * Pow2(n)
    decreases n
  {
    if n > 0 { Pow2Sum(m, n - 1); }
  }

  lemma Pow2Constants()
    ensures Pow2(32) == 0x1_0000_0000 && Pow2(39) == 0x80_0000_0000
  {
    assert Pow2(7) == 128 && Pow2(8) == 256;
    Pow2Sum(8, 8);
    Pow2Sum(16, 16);
    Pow2Sum(32, 7);
  }

  function SaturatingSub(x: nat, y: nat): nat
  {
    if y <= x then x - y else 0
  }

  // ---- Graph weight ------------------------------------------------------

  /** The height at which graphs of this size start to lose weight. */
  function ExpiryHeight(edgeBits: nat): nat
  {
    Pow2(SaturatingSub(edgeBits, DEFAULT_MIN_EDGE_BITS)) * YEAR_HEIGHT
  }

  /** What is left of the edge bits once the phase-out has begun. */
  function EffectiveEdgeBits(height: nat, edgeBits: nat): nat
  {
    if height >= ExpiryHeight(edgeBits)
    then SaturatingSub(edgeBits, 1 + (height - ExpiryHeight(edgeBits)) / WEEK_HEIGHT)
    else edgeBits
  }

  function GraphWeight(height: nat, edgeBits: nat): nat
    requires BASE_EDGE_BITS <= edgeBits
  {
    2 * Pow2(edgeBits - BASE_EDGE_BITS) * EffectiveEdgeBits(height, edgeBits)
  }

  /** No shift or product of the computation leaves 64 bits. */
  lemma GraphWeightFits(height: nat, edgeBits: nat)
    requires BASE_EDGE_BITS <= edgeBits <= 63
    ensures ExpiryHeight(edgeBits) < U64_RANGE
    ensures GraphWeight(height, edgeBits) < U64_RANGE
  {
    var over := SaturatingSub(edgeBits, DEFAULT_MIN_EDGE_BITS);
    Pow2Monotone(over, 32);
    Pow2Monotone(edgeBits - BASE_EDGE_BITS, 39);
    Pow2Constants();
    var shift, bits := Pow2(edgeBits - BASE_EDGE_BITS), EffectiveEdgeBits(height, edgeBits);
    assert bits <= 63;
    MulMonotone(2 * shift, 0x100_0000_0000, bits);
    MulMonotone(bits, 63, 0x100_0000_0000);
  }

  lemma MulMonotone(a: nat, b: nat, c: nat)
    requires a <= b
    ensures a * c <= b * c
  {
  }

  lemma FloorAtLeast(x: nat, d: nat, q: nat)
    requires d > 0
    ensures x / d >= q <==> x >= q * d
  {
    assert x == x / d * d + x % d;
    if x / d >= q { MulMonotone(q, x / d, d); }
    if x / d < q { MulMonotone(x / d + 1, q, d); }
  }

  lemma DivMonotone(a: nat, b: nat, d: nat)
    requires a <= b && d > 0
    ensures a / d <= b / d
  {
    FloorAtLeast(a, d, a / d);
    FloorAtLeast(b, d, a / d);
  }

  /** A graph never gains weight as the chain grows. */
  lemma GraphWeightNeverIncreases(low: nat, high: nat, edgeBits: nat)
    requires low <= high
    requires BASE_EDGE_BITS <= edgeBits
    ensures GraphWeight(high, edgeBits) <= GraphWeight(low, edgeBits)
  {
    var expiry := ExpiryHeight(edgeBits);
    if low >= expiry {
      DivMonotone(low - expiry, high - expiry, WEEK_HEIGHT);
    }
    MulMonotone(EffectiveEdgeBits(high, edgeBits), EffectiveEdgeBits(low, edgeBits), 2 * Pow2(edgeBits - BASE_EDGE_BITS));
  }

  /** Weight reaches zero exactly when the phase-out has used up every edge bit. */
  lemma GraphWeightZero(height: nat, edgeBits: nat)
    requires BASE_EDGE_BITS <= edgeBits
    ensures GraphWeight(height, edgeBits) == 0 <==> height >= ExpiryHeight(edgeBits) + (edgeBits - 1) * WEEK_HEIGHT
  {
    var expiry := ExpiryHeight(edgeBits);
    var bits, shift := EffectiveEdgeBits(height, edgeBits), 2 * Pow2(edgeBits - BASE_EDGE_BITS);
    assert shift * bits == 0 <==> bits == 0;
    if height >= expiry {
      FloorAtLeast(height - expiry, WEEK_HEIGHT, edgeBits - 1);
    }
  }

  /** Before its expiry a graph of 31 + k bits weighs 2^(8 + k) times its bits; its expiry is 2^k years of 52 weeks. */
  lemma FreshGraphWeight(height: nat, k: nat)
    requires height < Pow2(k) * 524160
    ensures GraphWeight(height, 31 + k) == Pow2(8 + k) * (31 + k)
  {
    assert ExpiryHeight(31 + k) == Pow2(k) * 524160;
    assert Pow2(8 + k) == 2 * Pow2(7 + k);
  }

  /** Smaller graphs expire after one such year, too. */
  lemma SmallGraphWeight(height: nat, edgeBits: nat)
    requires 24 <= edgeBits <= 31
    ensures GraphWeight(height, edgeBits) ==
              2 * Pow2(edgeBits - 24) * (if height < 524160 then edgeBits
                                         else if (height - 524160) / 10080 + 1 <= edgeBits then edgeBits - 1 - (height - 524160) / 10080
                                         else 0)
  {
    assert ExpiryHeight(edgeBits) == 524160;
  }

  /** From its expiry on a graph loses one bit each week, beginning at once. */
  lemma ExpiringGraphWeight(k: nat, age: nat)
    requires age / 10080 + 1 <= 31 + k
    ensures GraphWeight(Pow2(k) * 524160 + age, 31 + k) == Pow2(8 + k) * (30 + k - age / 10080)
  {
    assert ExpiryHeight(31 + k) == Pow2(k) * 524160;
    assert Pow2(8 + k) == 2 * Pow2(7 + k);
  }

  // ---- Difficulty --------------------------------------------------------

  function Max(a: nat, b: nat): nat { if a < b then b else a }

  function Min(a: nat, b: nat): nat { if a < b then a else b }

  /** The shifted scale, a 128-bit intermediate value. */
  function ShiftedScale(scale: nat): nat { scale * U64_RANGE }

  function ScaledDifficulty(scale: nat, hash: nat): nat
  {
    Min(ShiftedScale(scale) / Max(1, hash), U64_RANGE - 1)
  }

  function DifficultyFromNum(num: nat): nat { Max(num, 1) }

  function UnscaledDifficulty(hash: nat): nat
  {
    DifficultyFromNum(ScaledDifficulty(1, hash))
  }

  /** Secondary proofs are scaled by the chain's factor, all others by their graph weight. */
  function ToDifficulty(edgeBits: nat, hash: nat, height: nat, secScaling: nat): nat
    requires BASE_EDGE_BITS <= edgeBits
  {
    if edgeBits == SECOND_POW_EDGE_BITS
    then DifficultyFromNum(ScaledDifficulty(secScaling, hash))
    else DifficultyFromNum(ScaledDifficulty(GraphWeight(height, edgeBits), hash))
  }

  /** Shifting a 64-bit scale by 64 stays inside 128 bits. */
  lemma ShiftFitsU128(scale: nat)
    requires scale < U64_RANGE
    ensures ShiftedScale(scale) < U128_RANGE
  {
    MulMonotone(scale, U64_RANGE - 1, U64_RANGE);
  }

  /**
   * An unscaled difficulty reaches d exactly when the hash is at most 2^64 / d.
   * In particular it is never below one, so the share check for "less than one" cannot fire.
   */
  lemma UnscaledDifficultyThreshold(hash: nat, d: nat)
    requires hash < U64_RANGE && 1 <= d < U64_RANGE
    ensures UnscaledDifficulty(hash) >= d <==> Max(1, hash) * d <= U64_RANGE
    ensures UnscaledDifficulty(hash) >= 1
  {
    FloorAtLeast(U64_RANGE, Max(1, hash), d);
    assert d * Max(1, hash) == Max(1, hash) * d;
  }

  /**
   A difficulty of 2 or more is reached exactly when the hash is at most that part of 2^64 times the scale: the
   chain's factor for size 29, the graph weight for every other size.
   */
  lemma DifficultyThreshold(edgeBits: nat, hash: nat, height: nat, secScaling: nat, d: nat)
    requires BASE_EDGE_BITS <= edgeBits && 2 <= d < 0x1_0000_0000_0000_0000
    ensures ToDifficulty(edgeBits, hash, height, secScaling) >= d <==>
              (if hash == 0 then 1 else hash) * d
              <= (if edgeBits == 29 then secScaling else GraphWeight(height, edgeBits)) * 0x1_0000_0000_0000_0000
    ensures ToDifficulty(edgeBits, hash, height, secScaling) >= 1
  {
    var scale := if edgeBits == 29 then secScaling else GraphWeight(height, edgeBits);
    FloorAtLeast(ShiftedScale(scale), Max(1, hash), d);
    assert d * Max(1, hash) == Max(1, hash) * d;
  }

  /** For every proof size but the secondary one, difficulty never grows with height. */
  lemma DifficultyNeverIncreasesWithHeight(edgeBits: nat, hash: nat, low: nat, high: nat, secScaling: nat)
    requires BASE_EDGE_BITS <= edgeBits && edgeBits != SECOND_POW_EDGE_BITS
    requires low <= high
    ensures ToDifficulty(edgeBits, hash, high, secScaling) <= ToDifficulty(edgeBits, hash, low, secScaling)
  {
    GraphWeightNeverIncreases(low, high, edgeBits);
    var w, w' := GraphWeight(low, edgeBits), GraphWeight(high, edgeBits);
    MulMonotone(w', w, U64_RANGE);
    DivMonotone(ShiftedScale(w'), ShiftedScale(w), Max(1, hash));
  }

  /** A smaller hash is a better proof at any scale. */
  lemma DifficultyRewardsSmallHashes(scale: nat, small: nat, large: nat)
    requires small <= large
    ensures ScaledDifficulty(scale, large) <= ScaledDifficulty(scale, small)
  {
    var x, a, b := ShiftedScale(scale), Max(1, small), Max(1, large);
    assert x / b * b <= x;
    MulMonotone(a, b, x / b);
    FloorAtLeast(x, a, x / b);
  }

  // ---- Bits --------------------------------------------------------------

  /** Bit b of a number. */
  predicate NatBit(x: nat, b: nat) { x / Pow2(b) % 2 == 1 }

  function Mask(k: nat): bv8
    requires k < 8
  {
    if k == 0 then 1 else if k == 1 then 2 else if k == 2 then 4 else if k == 3 then 8
    else if k == 4 then 16 else if k == 5 then 32 else if k == 6 then 64 else 128
  }

  predicate ByteBit(b: bv8, k: nat)
    requires k < 8
  {
    b & Mask(k) != 0
  }

  predicate BitAt(bytes: seq<bv8>, pos: nat)
    requires pos < 8 * |bytes|
  {
    ByteBit(bytes[pos / 8], pos % 8)
  }

  lemma MaskIsShift(k: nat)
    requires k < 8
    ensures Mask(k) == (1 as bv8) << k
  {
  }

  lemma ByteBitOr(b: bv8, k: nat, j: nat)
    requires k < 8 && j < 8
    ensures ByteBit(b | Mask(k), j) <==> (j == k || ByteBit(b, j))
  {
  }

  /** A byte is determined by its eight bits. */
  lemma ByteExtensional(a: bv8, b: bv8)
    requires forall k | 0 <= k < 8 :: ByteBit(a, k) <==> ByteBit(b, k)
    ensures a == b
  {
    assert ByteBit(a, 0) <==> ByteBit(b, 0);
    assert ByteBit(a, 1) <==> ByteBit(b, 1);
    assert ByteBit(a, 2) <==> ByteBit(b, 2);
    assert ByteBit(a, 3) <==> ByteBit(b, 3);
    assert ByteBit(a, 4) <==> ByteBit(b, 4);
    assert ByteBit(a, 5) <==> ByteBit(b, 5);
    assert ByteBit(a, 6) <==> ByteBit(b, 6);
    assert ByteBit(a, 7) <==> ByteBit(b, 7);
  }

  function BytesLen(bitsLen: nat): nat { (bitsLen + 7) / 8 }

  /** What the packing of a proof must put at a bit position. */
  predicate PackedBit(nonces: seq<nat>, edgeBits: nat, pos: nat)
  {
    edgeBits > 0 && pos / edgeBits < |nonces| && NatBit(nonces[pos / edgeBits], pos % edgeBits)
  }

  /** Byte strings that hold the nonces at `edgeBits` bits each, padded with zeros. */
  predicate IsPacking(bytes: seq<bv8>, nonces: seq<nat>, edgeBits: nat)
  {
    && |bytes| == BytesLen(edgeBits * PROOF_SIZE)
    && forall pos: nat | pos < 8 * |bytes| :: BitAt(bytes, pos) <==> PackedBit(nonces, edgeBits, pos)
  }

  function SetBit(bytes: seq<bv8>, pos: nat): seq<bv8>
    requires pos < 8 * |bytes|
  {
    bytes[pos / 8 := bytes[pos / 8] | Mask(pos % 8)]
  }

  /** Setting a bit sets that bit and no other. */
  lemma SetBitChangesOneBit(bytes: seq<bv8>, pos: nat, p: nat)
    requires pos < 8 * |bytes| && p < 8 * |bytes|
    ensures BitAt(SetBit(bytes, pos), p) <==> (p == pos || BitAt(bytes, p))
  {
    ByteBitOr(bytes[pos / 8], pos % 8, p % 8);
  }

  /** The bits of a byte vector. */
  class BitVec {
    var bits: array<bv8>

    constructor (bitsLen: nat)
      ensures fresh(bits)
      ensures bits[..] == seq(BytesLen(bitsLen), _ => 0)
    {
      bits := new bv8[BytesLen(bitsLen)](_ => 0);
    }

    method SetBitAt(pos: nat)
      requires pos < 8 * bits.Length
      modifies bits
      ensures bits[..] == SetBit(old(bits[..]), pos)
    {
      bits[pos / 8] := bits[pos / 8] | Mask(pos % 8);
    }
  }

  lemma PositionSplit(n: nat, b: nat, edgeBits: nat)
    requires b < edgeBits
    ensures (n * edgeBits + b) / edgeBits == n
    ensures (n * edgeBits + b) % edgeBits == b
  {
    var p := n * edgeBits + b;
    assert p == p / edgeBits * edgeBits + p % edgeBits;
    if p / edgeBits < n { MulMonotone(p / edgeBits + 1, n, edgeBits); }
    if p / edgeBits > n { MulMonotone(n + 1, p / edgeBits, edgeBits); }
  }

  lemma PositionInRange(n: nat, b: nat, edgeBits: nat)
    requires n < PROOF_SIZE && b < edgeBits
    ensures n * edgeBits + b < edgeBits * PROOF_SIZE <= 8 * BytesLen(edgeBits * PROOF_SIZE)
  {
    MulMonotone(n + 1, PROOF_SIZE, edgeBits);
  }

  /** The bits below `limit` are packed and no later bit is set. */
  predicate PackedBelow(bytes: seq<bv8>, nonces: seq<nat>, edgeBits: nat, limit: nat)
  {
    && |bytes| == BytesLen(edgeBits * PROOF_SIZE)
    && forall p: nat | p < 8 * |bytes| :: BitAt(bytes, p) <==> (p < limit && PackedBit(nonces, edgeBits, p))
  }

  lemma PackedBelowStep(bytes: seq<bv8>, nonces: seq<nat>, edgeBits: nat, n: nat, bit: nat)
    requires PackedBelow(bytes, nonces, edgeBits, n * edgeBits + bit)
    requires n < |nonces| <= PROOF_SIZE && bit < edgeBits
    ensures n * edgeBits + bit < 8 * |bytes|
    ensures PackedBelow(if NatBit(nonces[n], bit) then SetBit(bytes, n * edgeBits + bit) else bytes,
                        nonces, edgeBits, n * edgeBits + bit + 1)
  {
    PositionInRange(n, bit, edgeBits);
    PositionSplit(n, bit, edgeBits);
    var pos := n * edgeBits + bit;
    var after := if NatBit(nonces[n], bit) then SetBit(bytes, pos) else bytes;
    forall p: nat | p < 8 * |after|
      ensures BitAt(after, p) <==> (p < pos + 1 && PackedBit(nonces, edgeBits, p))
    {
      SetBitChangesOneBit(bytes, pos, p);
    }
  }

  lemma NextRow(n: nat, edgeBits: nat)
    ensures n * edgeBits + edgeBits == (n + 1) * edgeBits
  {
  }

  /** The packing loop: every write is in bounds, and exactly the bits of the nonces are set. */
  method PackNonces(nonces: seq<nat>, edgeBits: nat) returns (bitvec: BitVec)
    requires |nonces| <= PROOF_SIZE
    requires edgeBits <= 63
    ensures IsPacking(bitvec.bits[..], nonces, edgeBits)
  {
    bitvec := new BitVec(edgeBits * PROOF_SIZE);
    for n := 0 to |nonces|
      invariant fresh(bitvec.bits)
      invariant PackedBelow(bitvec.bits[..], nonces, edgeBits, n * edgeBits)
    {
      for bit := 0 to edgeBits
        invariant fresh(bitvec.bits)
        invariant PackedBelow(bitvec.bits[..], nonces, edgeBits, n * edgeBits + bit)
      {
        PackBit(bitvec, nonces, edgeBits, n, bit);
      }
      NextRow(n, edgeBits);
    }
    PastTheNonces(nonces, edgeBits);
  }

  /** One bit of one nonce. */
  method PackBit(bitvec: BitVec, nonces: seq<nat>, edgeBits: nat, n: nat, bit: nat)
    requires n < |nonces| <= PROOF_SIZE && bit < edgeBits
    requires PackedBelow(bitvec.bits[..], nonces, edgeBits, n * edgeBits + bit)
    modifies bitvec.bits
    ensures PackedBelow(bitvec.bits[..], nonces, edgeBits, n * edgeBits + (bit + 1))
  {
    PackedBelowStep(bitvec.bits[..], nonces, edgeBits, n, bit);
    if NatBit(nonces[n], bit) {
      bitvec.SetBitAt(n * edgeBits + bit);
    }
  }

  lemma PastTheNonces(nonces: seq<nat>, edgeBits: nat)
    ensures forall pos: nat | PackedBit(nonces, edgeBits, pos) :: pos < |nonces| * edgeBits
  {
    forall pos: nat | PackedBit(nonces, edgeBits, pos) ensures pos < |nonces| * edgeBits {
      FloorAtLeast(pos, edgeBits, |nonces|);
    }
  }

  // ---- Unpacking ---------------------------------------------------------

  /** Reads back the `count` lowest bits stored for nonce n. */
  function UnpackBits(bytes: seq<bv8>, n: nat, edgeBits: nat, count: nat): nat
    requires n * edgeBits + count <= 8 * |bytes|
  {
    if count == 0 then 0
    else
      UnpackBits(bytes, n, edgeBits, count - 1)
      + if BitAt(bytes, n * edgeBits + count - 1) then Pow2(count - 1) else 0
  }

  /** Splitting off one more binary digit. */
  lemma ModPow2Step(x: nat, k: nat)
    ensures x % Pow2(k + 1) == x % Pow2(k) + if NatBit(x, k) then Pow2(k) else 0
  {
    var p := Pow2(k);
    var q := x / p;
    assert x == q * p + x % p;
    assert q == q / 2 * 2 + q % 2;
    var r := x % p + q % 2 * p;
    assert x == q / 2 * (2 * p) + r;
    assert 0 <= r < 2 * p;
    ModUnique(x, 2 * p, q / 2, r);
  }

  lemma ModUnique(x: nat, d: nat, q: nat, r: nat)
    requires r < d && x == q * d + r
    ensures x % d == r
  {
    PositionSplit(q, r, d);
  }

  lemma {:induction false} UnpackBitsCorrect(bytes: seq<bv8>, nonces: seq<nat>, edgeBits: nat, n: nat, count: nat)
    requires IsPacking(bytes, nonces, edgeBits)
    requires n < |nonces| <= PROOF_SIZE && count <= edgeBits
    ensures n * edgeBits + count <= 8 * |bytes|
    ensures UnpackBits(bytes, n, edgeBits, count) == nonces[n] % Pow2(count)
    decreases count
  {
    if count == 0 {
      MulMonotone(n, PROOF_SIZE, edgeBits);
    } else {
      UnpackBitsCorrect(bytes, nonces, edgeBits, n, count - 1);
      PackedBitAt(bytes, nonces, edgeBits, n, count - 1);
      ModPow2Step(nonces[n], count - 1);
      BitsInRange(bytes, nonces, edgeBits, n, count);
    }
  }

  /** The bits of a nonce lie inside the bytes. */
  lemma BitsInRange(bytes: seq<bv8>, nonces: seq<nat>, edgeBits: nat, n: nat, count: nat)
    requires IsPacking(bytes, nonces, edgeBits) && n < PROOF_SIZE && 0 < count <= edgeBits
    ensures n * edgeBits + count <= 8 * |bytes|
  {
    PositionInRange(n, count - 1, edgeBits);
  }

  /** Where bit b of nonce n is found. */
  lemma PackedBitAt(bytes: seq<bv8>, nonces: seq<nat>, edgeBits: nat, n: nat, b: nat)
    requires IsPacking(bytes, nonces, edgeBits)
    requires n < |nonces| <= PROOF_SIZE && b < edgeBits
    ensures n * edgeBits + b < 8 * |bytes|
    ensures BitAt(bytes, n * edgeBits + b) <==> NatBit(nonces[n], b)
  {
    PositionInRange(n, b, edgeBits);
    PositionSplit(n, b, edgeBits);
    assert BitAt(bytes, n * edgeBits + b) <==> PackedBit(nonces, edgeBits, n * edgeBits + b);
  }

  /** Unpacking a packed proof gives each nonce modulo 2^edgeBits. */
  lemma UnpackAfterPack(bytes: seq<bv8>, nonces: seq<nat>, edgeBits: nat, n: nat)
    requires IsPacking(bytes, nonces, edgeBits)
    requires n < |nonces| <= PROOF_SIZE
    ensures n * edgeBits + edgeBits <= 8 * |bytes|
    ensures UnpackBits(bytes, n, edgeBits, edgeBits) == nonces[n] % Pow2(edgeBits)
  {
    UnpackBitsCorrect(bytes, nonces, edgeBits, n, edgeBits);
  }

  /** The bit conditions leave no freedom: a proof has one packing. */
  lemma PackingUnique(a: seq<bv8>, b: seq<bv8>, nonces: seq<nat>, edgeBits: nat)
    requires IsPacking(a, nonces, edgeBits) && IsPacking(b, nonces, edgeBits)
    ensures a == b
  {
    forall i | 0 <= i < |a| ensures a[i] == b[i] {
      forall k | 0 <= k < 8 ensures ByteBit(a[i], k) <==> ByteBit(b[i], k) {
        PositionSplit(i, k, 8);
        assert BitAt(a, i * 8 + k) <==> BitAt(b, i * 8 + k);
      }
      ByteExtensional(a[i], b[i]);
    }
  }

  /** Two full proofs with in-range nonces never share a packing. */
  lemma PackingInjective(bytes: seq<bv8>, xs: seq<nat>, ys: seq<nat>, edgeBits: nat)
    requires |xs| == PROOF_SIZE && |ys| == PROOF_SIZE
    requires IsPacking(bytes, xs, edgeBits) && IsPacking(bytes, ys, edgeBits)
    requires forall i | 0 <= i < PROOF_SIZE :: xs[i] < Pow2(edgeBits) && ys[i] < Pow2(edgeBits)
    ensures xs == ys
  {
    forall i | 0 <= i < PROOF_SIZE ensures xs[i] == ys[i] {
      UnpackAfterPack(bytes, xs, edgeBits, i);
      UnpackAfterPack(bytes, ys, edgeBits, i);
      ModUnique(xs[i], Pow2(edgeBits), 0, xs[i]);
      ModUnique(ys[i], Pow2(edgeBits), 0, ys[i]);
    }
  }
}
