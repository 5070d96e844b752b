/** Byte shifts, powers of two and division, over the naturals. */
module Arithmetic {

  const TwoTo64: nat := 0x1_0000_0000_0000_0000

  // ----- shifts by whole bytes (big.Int.Lsh, big.Int.Rsh) -----

  function Shl(m: nat, k: nat): nat
    decreases k
  {
    if k == 0 then m else 256 * Shl(m, k - 1)
  }

  function Shr(t: nat, k: nat): nat
    decreases k
  {
    if k == 0 then t else Shr(t / 256, k - 1)
  }

  lemma {:induction false} ShlMono(a: nat, b: nat, k: nat)
    requires a <= b
    ensures Shl(a, k) <= Shl(b, k)
    decreases k
  {
    if k > 0 { ShlMono(a, b, k - 1); }
  }

  lemma {:induction false} ShlGrows(m: nat, j: nat, k: nat)
    requires j <= k
    ensures Shl(m, j) <= Shl(m, k)
    decreases k
  {
    if j < k { ShlGrows(m, j, k - 1); }
  }

  lemma {:induction false} ShlAdd(m: nat, j: nat, k: nat)
    ensures Shl(Shl(m, j), k) == Shl(m, j + k)
    decreases k
  {
    if k > 0 { ShlAdd(m, j, k - 1); }
  }

  lemma {:induction false} ShlSum(a: nat, b: nat, k: nat)
    ensures Shl(a + b, k) == Shl(a, k) + Shl(b, k)
    decreases k
  {
    if k > 0 { ShlSum(a, b, k - 1); }
  }

  lemma {:induction false} ShrAdd(t: nat, j: nat, k: nat)
    ensures Shr(Shr(t, j), k) == Shr(t, j + k)
    decreases j
  {
    if j > 0 { ShrAdd(t / 256, j - 1, k); }
  }

  lemma {:induction false} ShrMono(t: nat, u: nat, k: nat)
    requires t <= u
    ensures Shr(t, k) <= Shr(u, k)
    decreases k
  {
    if k > 0 { ShrMono(t / 256, u / 256, k - 1); }
  }

  // Shifting right and back left only clears the low bytes.
  lemma {:induction false} ShrBounds(t: nat, k: nat)
    ensures Shl(Shr(t, k), k) <= t < Shl(Shr(t, k) + 1, k)
    decreases k
  {
    if k > 0 { ShrBounds(t / 256, k - 1); }
  }

  lemma {:induction false} ShrOfShl(m: nat, j: nat, i: nat)
    requires i <= j
    ensures Shr(Shl(m, j), i) == Shl(m, j - i)
    decreases i
  {
    if i > 0 { ShrOfShl(m, j - 1, i - 1); }
  }

  // ----- how many bytes a number has -----

  function ByteLen(t: nat): nat { if t == 0 then 0 else 1 + ByteLen(t / 256) }

  lemma {:induction false} ByteLenBounds(t: nat)
    ensures t < Shl(1, ByteLen(t))
    ensures t > 0 ==> ByteLen(t) > 0 && Shl(1, ByteLen(t) - 1) <= t
  {
    if t > 0 { ByteLenBounds(t / 256); }
  }

  lemma {:induction false} ByteLenShl(m: nat, k: nat)
    requires m > 0
    ensures ByteLen(Shl(m, k)) == ByteLen(m) + k
    decreases k
  {
    if k > 0 { ByteLenShl(m, k - 1); }
  }

  lemma {:induction false} ByteLenShr(t: nat, k: nat)
    requires k <= ByteLen(t)
    ensures ByteLen(Shr(t, k)) == ByteLen(t) - k
    decreases k
  {
    if k > 0 { ByteLenShr(t / 256, k - 1); }
  }

  lemma {:induction false} ByteLenMono(t: nat, u: nat)
    requires t <= u
    ensures ByteLen(t) <= ByteLen(u)
  {
    if t > 0 { ByteLenMono(t / 256, u / 256); }
  }

  lemma SmallShifts()
    ensures Shl(1, 0) == 1 && Shl(1, 1) == 0x100 && Shl(1, 2) == 0x10000 && Shl(1, 3) == 0x1000000
    ensures Shl(1, 7) == 0x100_0000_0000_0000 && Shl(1, 8) == 0x1_0000_0000_0000_0000
  {
  }

  // ----- powers of two -----

  function Pow2(k: nat): (p: nat)
    ensures p > 0
  {
    if k == 0 then 1 else 2 * Pow2(k - 1)
  }

  lemma {:induction false} Pow2Mono(j: nat, k: nat)
    requires j <= k
    ensures Pow2(j) <= Pow2(k)
    decreases k
  {
    if j < k { Pow2Mono(j, k - 1); }
  }

  lemma Pow2Byte(k: nat)
    ensures Pow2(k + 8) == 256 * Pow2(k)
  {
    assert Pow2(k + 2) == 4 * Pow2(k);
    assert Pow2(k + 4) == 4 * Pow2(k + 2);
    assert Pow2(k + 6) == 4 * Pow2(k + 4);
  }

  lemma {:induction false} ByteLenBelowPow2(t: nat, k: nat, n: nat)
    requires t < Pow2(k) && k <= 8 * n
    ensures ByteLen(t) <= n
    decreases n
  {
    if n > 0 {
      if k <= 8 {
        Pow2Mono(k, 8);
        Pow2Byte(0);
      } else {
        Pow2Byte(k - 8);
        ByteLenBelowPow2(t / 256, k - 8, n - 1);
      }
    }
  }

  // ----- division by a variable -----

  lemma MulMono(p: nat, a: int, b: int)
    requires a <= b
    ensures p * a <= p * b
  {
    assert p * b - p * a == p * (b - a);
  }

  lemma MulCancel(p: nat, a: int, b: int)
    requires p * a < p * b
    ensures a < b
  {
    if b <= a { MulMono(p, b, a); }
  }

  // Division of naturals, counted out.
  function Quot(t: nat, p: nat): nat
    requires p > 0
    decreases t
  {
    if t < p then 0 else 1 + Quot(t - p, p)
  }

  lemma {:induction false} Euclid(t: nat, p: nat)
    requires p > 0
    ensures p * Quot(t, p) <= t < p * (Quot(t, p) + 1)
    decreases t
  {
    if t >= p {
      Euclid(t - p, p);
      var q := Quot(t - p, p);
      assert p * (1 + q) == p + p * q && p * (1 + q + 1) == p + p * (q + 1);
    }
  }

  lemma QuotBounds(t: nat, p: nat, lo: int, hi: int)
    requires p > 0 && p * lo <= t < p * hi
    ensures lo <= Quot(t, p) < hi
  {
    var q := Quot(t, p);
    Euclid(t, p);
    MulCancel(p, lo, q + 1);
    MulCancel(p, q, hi);
  }

  lemma QuotAntitone(t: nat, p: nat, q: nat)
    requires 0 < p <= q
    ensures Quot(t, q) <= Quot(t, p)
  {
    Euclid(t, p);
    Euclid(t, q);
    MulMono(Quot(t, q), p, q);
    MulCancel(p, Quot(t, q), Quot(t, p) + 1);
  }
}
