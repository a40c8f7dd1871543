/** The compact notation of targets: one byte of size and three of mantissa, whose top bit
    is not used. */
module CompactBits {
  import opened Arith
  import opened Bytes

  const MAX_BITS: int := 0x1F9F_FFFF

  /** All hashes there are: a target is met by one in DIFFICULTY_CONST / target of them. */
  const DIFFICULTY_CONST: nat := Pow256(32)

  lemma {:induction false} PowersOfTwo(n: nat)
    ensures Pow256(n) == Pow2(8 * n)
  {
    if n > 0 {
      PowersOfTwo(n - 1);
      assert Pow2(8 * n) == 2 * Pow2(8 * n - 1) == 4 * Pow2(8 * n - 2) == 8 * Pow2(8 * n - 3) == 16 * Pow2(8 * n - 4);
      assert Pow2(8 * n - 4) == 2 * Pow2(8 * n - 5) == 4 * Pow2(8 * n - 6) == 8 * Pow2(8 * n - 7) == 16 * Pow2(8 * (n - 1));
    }
  }

  lemma AllHashes()
    ensures DIFFICULTY_CONST == Pow2(256)
  {
    PowersOfTwo(32);
  }

  /** A mantissa with its size in bytes. */
  function Expanded(mant: nat, exp: nat): nat {
    if exp >= 3 then
      Scale(mant, 0, Pow256(exp - 3));
      mant * Pow256(exp - 3)
    else
      Fits(mant, Pow256(3 - exp), 0);
      mant / Pow256(3 - exp)
  }

  function BitsToTarget(bits: int): nat { Expanded(bits % 0x80_0000, bits / 0x100_0000 % 256) }

  function BitLength(n: nat): nat { if n == 0 then 0 else 1 + BitLength(n / 2) }

  function ByteLength(n: nat): nat { (BitLength(n) + 7) / 8 }

  function TargetToBits(target: int): int {
    var t: nat := if target <= 0 then 1 else target;
    var exp := ByteLength(t);
    if exp <= 3 then 3 * 0x100_0000 + t * Pow256(3 - exp) % 0x80_0000
    else
      var mant := t / Pow256(exp - 3);
      if mant / 0x80_0000 % 2 == 1 then (exp + 1) * 0x100_0000 + mant / 256 % 0x80_0000
      else exp * 0x100_0000 + mant % 0x80_0000
  }

  function TargetToDifficulty(target: int): nat { DIFFICULTY_CONST / (if target < 1 then 1 else target) }

  function DifficultyToTarget(diff: int): (t: nat)
    ensures t >= 1
  {
    var t := DIFFICULTY_CONST / (if diff < 1 then 1 else diff);
    if t < 1 then 1 else t
  }

  /** A target is the mantissa at base 256 to the exponent less three, cut off behind the point. */
  lemma TargetIsScaled(bits: int)
    ensures var t, m, e := BitsToTarget(bits), bits % 0x80_0000, bits / 0x100_0000 % 256;
            t * Pow256(3) <= m * Pow256(e) < (t + 1) * Pow256(3)
  {
    Scaled(bits % 0x80_0000, bits / 0x100_0000 % 256);
  }

  lemma Scaled(m: nat, e: nat)
    ensures Expanded(m, e) * Pow256(3) <= m * Pow256(e) < (Expanded(m, e) + 1) * Pow256(3)
  {
    if e >= 3 {
      PowSum(e - 3, 3);
      Multiplied(m, Pow256(e - 3), Pow256(3));
    } else {
      PowSum(3 - e, e);
      CutOff(m, Pow256(3 - e), Pow256(e));
    }
  }

  lemma Multiplied(m: nat, a: nat, b: nat)
    requires b > 0
    ensures (m * a) * b == m * (a * b) < (m * a + 1) * b
  {
  }

  lemma CutOff(m: nat, d: nat, b: nat)
    requires d > 0 && b > 0
    ensures (m / d) * (d * b) <= m * b < (m / d + 1) * (d * b)
  {
    var q := m / d;
    assert d * q <= m < d * q + d;
    Scale(b, d * q, m);
    Scale(b, m + 1, d * (q + 1));
    assert q * (d * b) == b * (d * q) && (q + 1) * (d * b) == b * (d * (q + 1));
  }

  /** Difficulty and target divide the 2^256 hashes between them, in both directions. */
  lemma DifficultyIs(target: int)
    requires target >= 1
    ensures TargetToDifficulty(target) * target <= Pow2(256) < (TargetToDifficulty(target) + 1) * target
  {
    AllHashes();
    Shares(Pow2(256), target);
  }

  lemma TargetFor(diff: int)
    requires 1 <= diff <= Pow2(256)
    ensures DifficultyToTarget(diff) * diff <= Pow2(256) < (DifficultyToTarget(diff) + 1) * diff
  {
    AllHashes();
    Shares(Pow2(256), diff);
    Fits(Pow2(256), diff, 1);
  }

  lemma Shares(v: nat, d: nat)
    requires d > 0
    ensures v / d * d <= v < (v / d + 1) * d
  {
  }

  // ---------- sizes ----------

  lemma BitLengthQuarter(n: nat)
    requires n >= 4
    ensures BitLength(n) == 2 + BitLength(n / 4)
  {
    assert BitLength(n) == 1 + BitLength(n / 2);
    assert BitLength(n / 2) == 1 + BitLength(n / 4);
  }

  lemma BitLengthSixteenth(n: nat)
    requires n >= 16
    ensures BitLength(n) == 4 + BitLength(n / 16)
  {
    var m := n / 4;
    BitLengthQuarter(n);
    BitLengthQuarter(m);
    assert m / 4 == n / 16;
  }

  lemma BitLengthShift(n: nat)
    requires n >= 256
    ensures BitLength(n) == 8 + BitLength(n / 256)
  {
    var m := n / 16;
    BitLengthSixteenth(n);
    BitLengthSixteenth(m);
    assert m / 16 == n / 256;
  }

  lemma {:induction false} BitLengthOfByte(n: nat, k: nat, p: nat)
    requires n < p && (k == 0 ==> p == 1) && (k > 0 ==> p % 2 == 0 && p > 0)
    requires k <= 8 && p == [1, 2, 4, 8, 16, 32, 64, 128, 256][k]
    ensures BitLength(n) <= k
  {
    if n > 0 { BitLengthOfByte(n / 2, k - 1, p / 2); }
  }

  /** The byte length counts the digits in base 256. */
  lemma {:induction false} ByteLengthBounds(n: nat)
    requires n > 0
    ensures ByteLength(n) >= 1 && Pow256(ByteLength(n) - 1) <= n < Pow256(ByteLength(n))
  {
    if n < 256 {
      BitLengthOfByte(n, 8, 256);
      assert BitLength(n) >= 1;
      assert Pow256(1) == 256 * Pow256(0);
    } else {
      ByteLengthBounds(n / 256);
      BitLengthShift(n);
      assert ByteLength(n) == 1 + ByteLength(n / 256);
    }
  }

  lemma {:induction false} PowGrows(a: nat, b: nat)
    requires a <= b
    ensures Pow256(a) <= Pow256(b)
  {
    if a < b { PowGrows(a, b - 1); }
  }

  lemma {:induction false} PowSum(a: nat, b: nat)
    ensures Pow256(a + b) == Pow256(a) * Pow256(b)
  {
    if a > 0 {
      PowSum(a - 1, b);
      assert 256 * Pow256(a - 1) * Pow256(b) == 256 * (Pow256(a - 1) * Pow256(b));
    }
  }

  // ---------- what survives the notation ----------

  lemma Decoded(exp: nat, mant: nat)
    requires 3 <= exp < 256 && mant < 0x80_0000
    ensures BitsToTarget(exp * 0x100_0000 + mant) == mant * Pow256(exp - 3)
  {
    var bits := exp * 0x100_0000 + mant;
    assert bits / 0x100_0000 == exp && bits % 0x80_0000 == mant;
  }

  /** A large number's byte length leaves three digits in front. */
  lemma ThreeDigits(t: nat) returns (exp: nat, p: nat)
    requires 0x100_0000 <= t < Pow256(200)
    ensures exp == ByteLength(t) && 4 <= exp <= 200 && p == Pow256(exp - 3) && Pow256(exp - 2) == 256 * p
    ensures 0x1_0000 <= t / p < 0x100_0000
  {
    exp := ByteLength(t);
    ByteLengthBounds(t);
    assert Pow256(3) == 0x100_0000 by { assert Pow256(2) == 256 * Pow256(1) && Pow256(1) == 256; }
    if exp <= 3 { PowGrows(exp, 3); }
    if exp > 200 { PowGrows(200, exp - 1); }
    p := Pow256(exp - 3);
    assert Pow256(exp - 2) == 256 * p;
    assert Pow256(exp - 1) == 256 * Pow256(exp - 2);
    Fits(t, p, 0x1_0000);
    Fits(t, p, 0x100_0000);
  }

  lemma Encoded(t: nat, exp: nat, mant: nat)
    requires t > 0 && exp == ByteLength(t) >= 4 && mant == t / Pow256(exp - 3) < 0x100_0000
    ensures TargetToBits(t) == if mant >= 0x80_0000 then (exp + 1) * 0x100_0000 + mant / 256 else exp * 0x100_0000 + mant
  {
  }

  lemma TopBitSet(t: nat, exp: nat, p: nat)
    requires 4 <= exp <= 200 && exp == ByteLength(t) && p == Pow256(exp - 3) && Pow256(exp - 2) == 256 * p
    requires 0x80_0000 <= t / p < 0x100_0000
    ensures t / Pow256(exp - 2) == t / p / 256
    ensures BitsToTarget(TargetToBits(t)) == t / p / 256 * Pow256(exp - 2)
  {
    Encoded(t, exp, t / p);
    DivDiv(t, p, 256);
    Decoded(exp + 1, t / p / 256);
  }

  lemma TopBitClear(t: nat, exp: nat, p: nat)
    requires 4 <= exp <= 200 && exp == ByteLength(t) && p == Pow256(exp - 3) && 0x1_0000 <= t / p < 0x80_0000
    ensures BitsToTarget(TargetToBits(t)) == t / p * p
  {
    Encoded(t, exp, t / p);
    Decoded(exp, t / p);
  }

  /** Large targets lose what lies below their leading two or three bytes. */
  lemma LargeTargetRounds(t: nat) returns (s: nat)
    requires 0x100_0000 <= t < Pow256(200)
    ensures 0x8000 <= t / Pow256(s) < 0x80_0000
    ensures BitsToTarget(TargetToBits(t)) == t / Pow256(s) * Pow256(s)
  {
    var exp, p := ThreeDigits(t);
    if t / p >= 0x80_0000 {
      s := exp - 2;
      TopBitSet(t, exp, p);
    } else {
      s := exp - 3;
      TopBitClear(t, exp, p);
    }
  }

  lemma RoundedIsNear(t: nat, p: nat)
    requires p > 0 && t / p >= 0x8000
    ensures t / p * p <= t <= t / p * p + t / p * p / 0x8000
  {
    var q := t / p;
    assert p * q <= t < p * q + p;
    Scale(p, 0x8000, q);
    Fits(p * q, 0x8000, p);
  }

  /** Decoding gives the target back, short of at most a 2^15th part, exactly for targets from
      2^24 on and for those between 2^16 and 2^23; smaller ones come back inflated and those
      with the unused bit set come back without it. */
  lemma RoundTripAccurateExactlyWhen(t: nat)
    requires 1 <= t < Pow256(200)
    ensures Near(BitsToTarget(TargetToBits(t)), t) <==> t >= 0x100_0000 || 0x1_0000 <= t < 0x80_0000
  {
    if t >= 0x100_0000 {
      var s := LargeTargetRounds(t);
      RoundedIsNear(t, Pow256(s));
    } else {
      SmallTarget(t);
      SmallIsNearWhen(t, BitsToTarget(TargetToBits(t)));
    }
  }

  predicate Near(d: nat, t: nat) { d <= t <= d + d / 0x8000 }

  lemma SmallIsNearWhen(t: nat, d: nat)
    requires 1 <= t < 0x100_0000
    requires d == (if t < 0x100 then t * 0x1_0000 else if t < 0x1_0000 then t * 0x100 else t) % 0x80_0000
    ensures Near(d, t) <==> 0x1_0000 <= t < 0x80_0000
  {
  }

  lemma SmallLength(t: nat)
    requires 1 <= t < 0x100_0000
    ensures ByteLength(t) == if t < 0x100 then 1 else if t < 0x1_0000 then 2 else 3
    ensures Pow256(0) == 1 && Pow256(1) == 0x100 && Pow256(2) == 0x1_0000
  {
    ByteLengthBounds(t);
    assert Pow256(1) == 0x100 && Pow256(2) == 0x1_0000 && Pow256(3) == 0x100_0000 by { assert Pow256(2) == 256 * Pow256(1); }
    if ByteLength(t) > 3 { PowGrows(3, ByteLength(t) - 1); }
  }

  lemma EncodedSmall(t: nat)
    requires t > 0 && ByteLength(t) <= 3
    ensures TargetToBits(t) == 3 * 0x100_0000 + t * Pow256(3 - ByteLength(t)) % 0x80_0000
  {
  }

  lemma SmallTarget(t: nat)
    requires 1 <= t < 0x100_0000
    ensures BitsToTarget(TargetToBits(t)) == (if t < 0x100 then t * 0x1_0000 else if t < 0x1_0000 then t * 0x100 else t) % 0x80_0000
  {
    SmallLength(t);
    EncodedSmall(t);
    Decoded(3, t * Pow256(3 - ByteLength(t)) % 0x80_0000);
  }

  /** A target that the notation can express is a three-digit number with zeros behind. */
  lemma Expressible(bits: int) returns (m: nat, k: nat)
    requires BitsToTarget(bits) >= 0x100_0000
    ensures m < 0x80_0000 && BitsToTarget(bits) == m * Pow256(k)
  {
    var exp := bits / 0x100_0000 % 256;
    m := bits % 0x80_0000;
    Shrinks(m, Pow256(if exp < 3 then 3 - exp else 0));
    k := exp - 3;
  }

  lemma Shrinks(v: nat, d: nat)
    requires d > 0
    ensures v / d <= v
  {
    Fits(v, d, v / d);
    Scale(v / d, 1, d);
  }

  lemma SameDigits(m: nat, k: nat, x: nat, s: nat)
    requires s <= k && m * Pow256(k) <= x
    ensures m * Pow256(k) <= x / Pow256(s) * Pow256(s)
  {
    PowSum(k - s, s);
    MultipleFits(m, Pow256(k - s), Pow256(s), x);
  }

  lemma MultipleFits(m: nat, a: nat, p: nat, x: nat)
    requires p > 0 && m * (a * p) <= x
    ensures m * (a * p) <= x / p * p
  {
    var n := m * a;
    assert m * (a * p) == p * n;
    Fits(x, p, n);
    Scale(p, n, x / p);
  }

  lemma FewerDigits(m: nat, k: nat, x: nat, s: nat)
    requires k < s && m < 0x80_0000 && x / Pow256(s) >= 0x8000
    ensures m * Pow256(k) <= x / Pow256(s) * Pow256(s)
  {
    var p, r := Pow256(s), Pow256(s - 1);
    PowGrows(k, s - 1);
    Scale(m, Pow256(k), r);
    Scale(r, m, 0x80_0000);
    Scale(p, 0x8000, x / p);
  }

  /** Rounding never goes below a target that the notation can express. */
  lemma RoundsNoFurther(bits: int, x: nat)
    requires 0x100_0000 <= BitsToTarget(bits) <= x < Pow256(200)
    ensures BitsToTarget(bits) <= BitsToTarget(TargetToBits(x)) <= x
  {
    var s := LargeTargetRounds(x);
    var m, k := Expressible(bits);
    if s <= k { SameDigits(m, k, x, s); } else { FewerDigits(m, k, x, s); }
    RoundedIsNear(x, Pow256(s));
  }

  // ---------- order ----------

  /** The target a node reads out of the bits written for `t`. */
  function Reread(t: int): nat { BitsToTarget(TargetToBits(t)) }

  lemma LargeStaysLarge(t: nat)
    requires 0x100_0000 <= t < Pow256(200)
    ensures 0x100_0000 <= Reread(t) <= t
  {
    var s := LargeTargetRounds(t);
    RoundedIsNear(t, Pow256(s));
    Pow256Of3();
    if s <= 3 {
      SameDigits(1, 3, t, s);
    } else {
      PowGrows(3, s);
      Scale(Pow256(s), 1, t / Pow256(s));
    }
  }

  lemma Pow256Of3()
    ensures Pow256(3) == 0x100_0000
  {
    assert Pow256(2) == 256 * Pow256(1) && Pow256(1) == 256;
  }

  lemma LosesTopBit(t: nat)
    requires 0x80_0000 <= t < 0x100_0000
    ensures Reread(t) == t - 0x80_0000
  {
    SmallTarget(t);
    CutTopBit(t);
  }

  lemma CutTopBit(t: nat)
    requires 0x80_0000 <= t < 0x100_0000
    ensures t % 0x80_0000 == t - 0x80_0000
  {
  }

  lemma LargeMonotone(x: nat, y: nat)
    requires 0x100_0000 <= x <= y < Pow256(200)
    ensures Reread(x) <= Reread(y)
  {
    LargeStaysLarge(x);
    RoundsNoFurther(TargetToBits(x), y);
  }

  /** From 2^23 on the notation keeps the order. */
  lemma EncodingMonotone(x: nat, y: nat)
    requires 0x80_0000 <= x <= y < Pow256(200)
    ensures Reread(x) <= Reread(y)
  {
    if x >= 0x100_0000 {
      LargeMonotone(x, y);
    } else {
      LosesTopBit(x);
      if y < 0x100_0000 { LosesTopBit(y); } else { LargeStaysLarge(y); }
    }
  }

  /** Below it does not: 2^23 itself is read back as zero, under everything smaller except the
      two other powers of two that lose their only bit. */
  lemma MonotoneFromExactlyWhen(x: nat)
    requires 1 <= x < Pow256(200)
    ensures (forall y :: x <= y < Pow256(200) ==> Reread(x) <= Reread(y)) <==> x >= 0x80_0000 || x == 0x80 || x == 0x8000
  {
    Pow256Of3();
    PowGrows(3, 200);
    if x >= 0x80_0000 {
      forall y | x <= y < Pow256(200) ensures Reread(x) <= Reread(y) { EncodingMonotone(x, y); }
    } else {
      SmallTarget(x);
      SmallTarget(0x80_0000);
      VanishesWhen(x);
      assert Reread(0x80_0000) == 0;
    }
  }

  lemma VanishesWhen(x: nat)
    requires 1 <= x < 0x80_0000
    ensures (if x < 0x100 then x * 0x1_0000 else if x < 0x1_0000 then x * 0x100 else x) % 0x80_0000 == 0 <==> x == 0x80 || x == 0x8000
  {
  }
}
