/** Compact proof-of-work targets and 64-bit chain work (core/consensus/pow). */
module Pow {
  import opened ChainTypes
  import opened Arithmetic

  const TwoTo15: nat := 0x8000
  const TwoTo16: nat := 0x10000
  const TwoTo23: nat := 0x800000
  const TwoTo24: nat := 0x1000000
  const TwoTo56: nat := 0x100_0000_0000_0000
  const MaxWork: nat := TwoTo64 - 1

  // ----- big-endian byte strings without leading zeros (big.Int.Bytes) -----

  function Bytes(t: nat): (b: seq<nat>)
    ensures |b| == ByteLen(t)
  {
    if t == 0 then [] else Bytes(t / 256) + [t % 256]
  }

  // The number a byte string spells, most significant byte first.
  function Value(b: seq<nat>): nat {
    if b == [] then 0 else Value(b[..|b| - 1]) * 256 + b[|b| - 1]
  }

  // The first k bytes spell the number with the remaining bytes shifted out.
  lemma {:induction false} PrefixValue(t: nat, k: nat)
    requires k <= ByteLen(t)
    ensures Value(Bytes(t)[..k]) == Shr(t, ByteLen(t) - k)
    decreases t
  {
    var b := Bytes(t);
    if t == 0 {
      assert b[..k] == [];
    } else {
      var rest := Bytes(t / 256);
      if k < |b| {
        PrefixValue(t / 256, k);
        assert b[..k] == rest[..k];
      } else {
        PrefixValue(t / 256, |rest|);
        assert rest[..|rest|] == rest && b[..k] == b && b[..|b| - 1] == rest;
      }
    }
  }

  method LeadingBytes(bb: seq<nat>, n: nat) returns (top: nat)
    requires n <= |bb|
    ensures top == Value(bb[..n])
  {
    top := 0;
    for i := 0 to n
      invariant top == Value(bb[..i])
    {
      assert bb[..i + 1][..i] == bb[..i];
      top := top * 256 + bb[i];
    }
  }

  // ----- compact targets -----

  function Expand(exponent: nat, mantissa: nat): nat {
    if exponent <= 3 then Shr(mantissa, 3 - exponent)
    else Shl(mantissa, (exponent - 3) % 32)  // the bit count is a uint8, so it wraps at 32 bytes
  }

  function CompactToBig(compact: nat): nat {
    Expand((compact / TwoTo24) % 256, compact % TwoTo23)
  }

  // What the encoder reads off the top of a target: three bytes, or for a short target all
  // of them without the last.
  function TopMantissa(target: nat): nat {
    if ByteLen(target) <= 3 then target / 256 else Shr(target, ByteLen(target) - 3)
  }

  // A mantissa with its sign bit set is shortened by one byte.
  function Pack(exponent: nat, mantissa: nat): nat {
    if mantissa / TwoTo23 % 2 == 1 then ((exponent + 1) % 256) * TwoTo24 + (mantissa / 256) % TwoTo23
    else (exponent % 256) * TwoTo24 + mantissa % TwoTo23
  }

  function BigToCompact(target: nat): nat {
    if target == 0 then 0 else Pack(ByteLen(target), TopMantissa(target))
  }

  method ComputeBigToCompact(target: nat) returns (bits: nat)
    ensures bits == BigToCompact(target)
  {
    if target == 0 { return 0; }
    var b := Bytes(target);
    var exponent, mantissa := |b|, 0;
    if exponent <= 3 {
      mantissa := target / 256;
    } else {
      mantissa := LeadingBytes(b, 3);
      PrefixValue(target, 3);
    }
    if mantissa / TwoTo23 % 2 == 1 {
      mantissa := mantissa / 256;
      exponent := exponent + 1;
    }
    bits := (exponent % 256) * TwoTo24 + mantissa % TwoTo23;
  }

  lemma Unpack(exponent: nat, mantissa: nat)
    requires exponent < 256 && mantissa < TwoTo23
    ensures CompactToBig(exponent * TwoTo24 + mantissa) == Expand(exponent, mantissa)
  {
    var c := exponent * TwoTo24 + mantissa;
    assert c / TwoTo24 == exponent && c % TwoTo23 == mantissa;
  }

  lemma PackForm(e: nat, m: nat)
    requires e <= 32 && m < TwoTo24
    ensures Pack(e, m) == if m >= TwoTo23 then (e + 1) * TwoTo24 + m / 256 else e * TwoTo24 + m
  {
  }

  // How many bytes the encoding of a target of four or more bytes drops, and what it keeps.
  function Dropped(t: nat): nat
    requires ByteLen(t) >= 4
  {
    if TopMantissa(t) >= TwoTo23 then ByteLen(t) - 2 else ByteLen(t) - 3
  }

  function Kept(t: nat): nat
    requires ByteLen(t) >= 4
  {
    Shr(t, Dropped(t))
  }

  lemma ThreeBytes(m: nat)
    ensures ByteLen(m) == 3 <==> TwoTo16 <= m < TwoTo24
    ensures ByteLen(m) == 2 <==> 0x100 <= m < TwoTo16
    ensures ByteLen(m) == 1 <==> 0 < m < 0x100
  {
    assert ByteLen(m) == if m == 0 then 0 else 1 + ByteLen(m / 256);
    var n := m / 256;
    assert ByteLen(n) == if n == 0 then 0 else 1 + ByteLen(n / 256);
    var l := n / 256;
    assert ByteLen(l) == if l == 0 then 0 else 1 + ByteLen(l / 256);
  }

  lemma KeptBounds(t: nat)
    requires ByteLen(t) >= 4
    ensures TwoTo16 <= TopMantissa(t) < TwoTo24
    ensures Kept(t) == if TopMantissa(t) >= TwoTo23 then TopMantissa(t) / 256 else TopMantissa(t)
    ensures TwoTo15 <= Kept(t) < TwoTo23
  {
    var n, m := ByteLen(t), TopMantissa(t);
    ByteLenShr(t, n - 3);
    ThreeBytes(m);
    ShrAdd(t, n - 3, 1);
    assert Shr(m, 1) == Shr(m / 256, 0);
  }

  lemma EncodeLarge(t: nat)
    requires 4 <= ByteLen(t) <= 32
    ensures BigToCompact(t) == (Dropped(t) + 3) * TwoTo24 + Kept(t)
  {
    KeptBounds(t);
    PackForm(ByteLen(t), TopMantissa(t));
  }

  lemma ExpandLarge(k: nat, m: nat)
    requires 1 <= k < 32
    ensures Expand(k + 3, m) == Shl(m, k)
  {
    var shift := (k + 3 - 3) % 32;
    assert shift == k;
    assert Expand(k + 3, m) == Shl(m, shift);
  }

  lemma DecodeLarge(t: nat)
    requires 4 <= ByteLen(t) <= 32
    ensures CompactToBig(BigToCompact(t)) == Shl(Kept(t), Dropped(t))
  {
    EncodeLarge(t);
    KeptBounds(t);
    var k, m := Dropped(t), Kept(t);
    Unpack(k + 3, m);
    ExpandLarge(k, m);
  }

  lemma AtLeastFourBytes(t: nat)
    ensures ByteLen(t) >= 4 <==> t >= TwoTo24
  {
    ThreeBytes(t);
  }

  // What a large target is rounded to.
  function Rounded(t: nat): nat
    requires ByteLen(t) >= 4
  {
    Shl(Kept(t), Dropped(t))
  }

  lemma RoundedBounds(t: nat)
    requires ByteLen(t) >= 4
    ensures Rounded(t) <= t < Rounded(t) + Shl(1, Dropped(t))
    ensures Rounded(t) >= TwoTo15
  {
    KeptBounds(t);
    var k, m := Dropped(t), Kept(t);
    ShrBounds(t, k);
    ShlSum(m, 1, k);
    ShlGrows(m, 0, k);
  }

  /** Encoding a target of at least 2^24 only rounds it down, by less than one unit of the last
      byte it keeps. */
  lemma RoundTripDropsLowBytes(t: nat)
    requires TwoTo24 <= t && ByteLen(t) <= 32
    ensures ByteLen(t) >= 4
    ensures var d := CompactToBig(BigToCompact(t));
            d == Shl(Kept(t), Dropped(t)) && d <= t < d + Shl(1, Dropped(t)) && d >= TwoTo15
  {
    AtLeastFourBytes(t);
    DecodeLarge(t);
    RoundedBounds(t);
  }

  // A kept part below 2^23 with fewer bytes dropped stays below any with more dropped.
  lemma ScaleOrder(j: nat, k: nat, f: nat, g: nat)
    requires j < k && f < TwoTo23 && TwoTo15 <= g
    ensures Shl(f + 1, j) <= Shl(g, k)
  {
    ShlMono(f + 1, TwoTo23, j);
    assert Shl(TwoTo15, 1) == 256 * Shl(TwoTo15, 0) == TwoTo23;
    ShlAdd(TwoTo15, 1, j);
    ShlGrows(TwoTo15, 1 + j, k);
    ShlMono(TwoTo15, g, k);
  }

  lemma DroppedMonotone(t: nat, u: nat)
    requires t <= u && ByteLen(t) >= 4 && ByteLen(u) >= 4
    ensures Dropped(t) <= Dropped(u)
  {
    ByteLenMono(t, u);
    if ByteLen(t) == ByteLen(u) { ShrMono(t, u, ByteLen(t) - 3); }
  }

  lemma ShiftOrder(t: nat, u: nat, j: nat, k: nat)
    requires t <= u && j <= k && Shr(t, j) < TwoTo23 && TwoTo15 <= Shr(u, k)
    ensures Shl(Shr(t, j), j) <= Shl(Shr(u, k), k)
  {
    var f, g := Shr(t, j), Shr(u, k);
    if j == k {
      ShrMono(t, u, j);
      ShlMono(f, g, j);
    } else {
      ShlMono(f, f + 1, j);
      ScaleOrder(j, k, f, g);
    }
  }

  /** Decoding what was encoded respects the order of targets. */
  lemma RoundTripMonotone(t: nat, u: nat)
    requires TwoTo24 <= t <= u && ByteLen(u) <= 32
    ensures CompactToBig(BigToCompact(t)) <= CompactToBig(BigToCompact(u))
  {
    AtLeastFourBytes(t);
    ByteLenMono(t, u);
    DecodeLarge(t);
    DecodeLarge(u);
    KeptBounds(t);
    KeptBounds(u);
    DroppedMonotone(t, u);
    ShiftOrder(t, u, Dropped(t), Dropped(u));
  }

  lemma ReencodeLarge(t: nat)
    requires TwoTo24 <= t && ByteLen(t) <= 32
    ensures BigToCompact(CompactToBig(BigToCompact(t))) == BigToCompact(t)
  {
    AtLeastFourBytes(t);
    DecodeLarge(t);
    KeptBounds(t);
    EncodeLarge(t);
    var n, k, f := ByteLen(t), Dropped(t), Kept(t);
    var d := Shl(f, k);
    ThreeBytes(f);
    ByteLenShl(f, k);
    ShrOfShl(f, k, n - 3);
    assert TopMantissa(d) == TopMantissa(t) || TopMantissa(d) == 256 * f;
    PackForm(n, TopMantissa(d));
  }

  lemma SmallTargets(t: nat)
    requires 0 < t < TwoTo24
    ensures ByteLen(t) == if t < 0x100 then 1 else if t < TwoTo16 then 2 else 3
    ensures BigToCompact(t) == ByteLen(t) * TwoTo24 + t / 256
    ensures CompactToBig(BigToCompact(t)) == if t < TwoTo16 then 0 else t / 256
  {
    ThreeBytes(t);
    PackForm(ByteLen(t), t / 256);
    Unpack(ByteLen(t), t / 256);
    assert Shr(t / 256, 2) == Shr(t / 256 / 256, 1) == Shr(t / 256 / 256 / 256, 0);
    assert Shr(t / 256, 1) == Shr(t / 256 / 256, 0);
  }

  /** Re-encoding a decoded target gives the same bits exactly for targets of at least 2^24:
      below that the encoder drops the last byte of a target it could have kept. */
  lemma ReencodeIff(t: nat)
    requires 0 < t && ByteLen(t) <= 32
    ensures BigToCompact(CompactToBig(BigToCompact(t))) == BigToCompact(t) <==> t >= TwoTo24
  {
    if t >= TwoTo24 {
      ReencodeLarge(t);
    } else {
      SmallTargets(t);
      if t >= TwoTo16 { SmallTargets(t / 256); }
    }
  }

  lemma RoundTripNeverRaises(t: nat)
    requires ByteLen(t) <= 32
    ensures CompactToBig(BigToCompact(t)) <= t
  {
    if t >= TwoTo24 {
      RoundTripDropsLowBytes(t);
    } else if t > 0 {
      SmallTargets(t);
    } else {
      Unpack(0, 0);
    }
  }

  // ----- hashes against targets -----

  function HashToBig(h: Hash): nat {
    if h == "" then 0 else HashToBig(h[..|h| - 1]) * 256 + h[|h| - 1] as int
  }

  predicate MeetsTarget(h: Hash, bits: nat) {
    var target := CompactToBig(bits);
    target > 0 && HashToBig(h) <= target
  }

  // ----- the hash read as bytes, most significant first -----

  ghost predicate IsBytes(h: Hash) { forall i :: 0 <= i < |h| ==> h[i] as int < 256 }

  /** Place values: what comes first in the hash weighs 256 times more with every byte after it. */
  lemma {:induction false} HashPlaces(a: Hash, b: Hash)
    ensures HashToBig(a + b) == Shl(HashToBig(a), |b|) + HashToBig(b)
    ensures |a| == 1 ==> HashToBig(a) == a[0] as int
    decreases |b|
  {
    if |a| == 1 { assert a[..0] == ""; }
    if b == "" {
      assert a + b == a;
    } else {
      var front, n := b[..|b| - 1], |b| - 1;
      HashPlaces(a, front);
      assert (a + b)[..|a + b| - 1] == a + front;
    }
  }

  lemma {:induction false} HashBelow(h: Hash)
    requires IsBytes(h)
    ensures HashToBig(h) < Shl(1, |h|)
    decreases |h|
  {
    if h != "" { HashBelow(h[..|h| - 1]); }
  }

  lemma {:induction false} HashIsZeroIff(h: Hash)
    ensures HashToBig(h) == 0 <==> forall i :: 0 <= i < |h| ==> h[i] as int == 0
    decreases |h|
  {
    if h != "" {
      var front := h[..|h| - 1];
      HashIsZeroIff(front);
      if forall i :: 0 <= i < |h| ==> h[i] as int == 0 {
        assert forall i :: 0 <= i < |front| ==> front[i] == h[i];
      } else if HashToBig(h) == 0 {
        assert forall i :: 0 <= i < |front| ==> front[i] as int == 0 && front[i] == h[i];
      }
    }
  }

  // Byte j of an n-byte big-endian number.
  function ByteAt(t: nat, n: nat, j: nat): nat
    requires j < n
  {
    Shr(t, n - 1 - j) % 256
  }

  // The first i bytes of the hash are those of the number.
  ghost predicate Agrees(h: Hash, t: nat, i: nat)
    requires i <= |h|
  {
    forall j :: 0 <= j < i ==> h[j] as int == ByteAt(t, |h|, j)
  }

  ghost predicate DropsAt(h: Hash, t: nat, i: nat)
    requires i < |h|
  {
    Agrees(h, t, i) && h[i] as int < ByteAt(t, |h|, i)
  }

  lemma ByteAtFront(t: nat, n: nat, j: nat)
    requires j + 1 < n
    ensures ByteAt(t, n, j) == ByteAt(t / 256, n - 1, j)
  {
  }

  lemma AgreesFront(h: Hash, t: nat, i: nat)
    requires i < |h|
    ensures Agrees(h, t, i) <==> Agrees(h[..|h| - 1], t / 256, i)
  {
    var n, front := |h|, h[..|h| - 1];
    forall j | 0 <= j < i ensures h[j] as int == ByteAt(t, n, j) <==> front[j] as int == ByteAt(t / 256, n - 1, j) {
      ByteAtFront(t, n, j);
    }
    if Agrees(h, t, i) {
      forall j | 0 <= j < i ensures front[j] as int == ByteAt(t / 256, |front|, j) { assert h[j] as int == ByteAt(t, n, j); }
    }
    if Agrees(front, t / 256, i) {
      forall j | 0 <= j < i ensures h[j] as int == ByteAt(t, n, j) { assert front[j] as int == ByteAt(t / 256, n - 1, j); }
    }
  }

  lemma {:induction false} HashEqualIff(h: Hash, t: nat)
    requires IsBytes(h) && t < Shl(1, |h|)
    ensures HashToBig(h) == t <==> Agrees(h, t, |h|)
    decreases |h|
  {
    if h != "" {
      var n, front := |h| - 1, h[..|h| - 1];
      HashEqualIff(front, t / 256);
      AgreesFront(h, t, n);
      assert ByteAt(t, |h|, n) == t % 256;
      assert Agrees(h, t, n + 1) <==> Agrees(h, t, n) && h[n] as int == t % 256;
    }
  }

  lemma {:induction false} HashLessIff(h: Hash, t: nat)
    requires IsBytes(h) && t < Shl(1, |h|)
    ensures HashToBig(h) < t <==> exists i :: 0 <= i < |h| && DropsAt(h, t, i)
    decreases |h|
  {
    if h != "" {
      var n, front := |h| - 1, h[..|h| - 1];
      HashLessIff(front, t / 256);
      HashEqualIff(front, t / 256);
      AgreesFront(h, t, n);
      assert ByteAt(t, |h|, n) == t % 256;
      assert HashToBig(h) < t <==> HashToBig(front) < t / 256 || (HashToBig(front) == t / 256 && h[n] as int < t % 256);
      forall i | 0 <= i < n ensures DropsAt(h, t, i) <==> DropsAt(front, t / 256, i) {
        AgreesFront(h, t, i);
        ByteAtFront(t, |h|, i);
      }
      if HashToBig(front) < t / 256 {
        var i :| 0 <= i < n && DropsAt(front, t / 256, i);
        assert DropsAt(h, t, i);
      } else if HashToBig(h) < t {
        assert DropsAt(h, t, n);
      }
      if i :| 0 <= i < |h| && DropsAt(h, t, i) {
        if i < n { assert DropsAt(front, t / 256, i); }
      }
    }
  }

  /** Byte for byte: a 32-byte hash meets a positive target exactly when, read from the front, it is
      the target's 32 big-endian bytes or is smaller where it first differs from them. A target of
      more than 32 bytes is met by every hash. */
  lemma MeetsTargetIff(h: Hash, bits: nat)
    requires |h| == 32 && IsBytes(h)
    ensures var t := CompactToBig(bits);
            MeetsTarget(h, bits) <==>
            t > 0 && (t >= Shl(1, 32) || Agrees(h, t, 32) || exists i :: 0 <= i < 32 && DropsAt(h, t, i))
  {
    var t := CompactToBig(bits);
    HashBelow(h);
    if t < Shl(1, 32) {
      HashEqualIff(h, t);
      HashLessIff(h, t);
    }
  }

  /** What compact bits spell: the low 23 bits, with as many zero bytes behind them as the top byte
      is above three, up to 31. */
  lemma CompactSpells(exponent: nat, mantissa: nat)
    requires 3 <= exponent <= 34 && mantissa < 0x800000
    ensures CompactToBig(exponent * 0x1000000 + mantissa) == Shl(mantissa, exponent - 3)
  {
    var c := exponent * 0x1000000 + mantissa;
    assert c / 0x1000000 == exponent && c % 0x800000 == mantissa;
  }

  // The first `lz` bits of the hash are zero.
  ghost predicate LeadingZeroBits(h: Hash, lz: nat)
    requires lz < 8 * |h|
  {
    && (forall i :: 0 <= i < lz / 8 ==> h[i] as int == 0)
    && h[lz / 8] as int < Pow2(8 - lz % 8)
  }

  lemma {:induction false} Pow2Shl(r: nat, k: nat)
    ensures Pow2(r + 8 * k) == Shl(Pow2(r), k)
    decreases k
  {
    if k > 0 {
      Pow2Shl(r, k - 1);
      Pow2Byte(r + 8 * (k - 1));
    }
  }

  lemma SmallTop(front: nat, c: nat, r: nat)
    requires c < 256 && r < 8
    ensures 256 * front + c < Pow2(8 - r) <==> front == 0 && c < Pow2(8 - r)
  {
    Pow2Byte(0);
    Pow2Mono(8 - r, 8);
  }

  lemma ShlBelowIff(x: nat, y: nat, low: nat, k: nat)
    requires low < Shl(1, k)
    ensures Shl(x, k) + low < Shl(y, k) <==> x < y
  {
    if x < y {
      ShlSum(x, 1, k);
      ShlMono(x + 1, y, k);
    } else {
      ShlMono(y, x, k);
    }
  }

  /** A hash is below 2^(bits - lz) exactly when its first `lz` bits are zero. */
  lemma LeadingZerosIff(h: Hash, lz: nat)
    requires IsBytes(h) && lz < 8 * |h|
    ensures HashToBig(h) < Pow2(8 * |h| - lz) <==> LeadingZeroBits(h, lz)
  {
    var q, r := lz / 8, lz % 8;
    var a, b, c := h[..q], h[q + 1..], h[q] as int;
    assert h == (a + [h[q]]) + b;
    HashPlaces(a + [h[q]], b);
    HashPlaces(a, [h[q]]);
    HashPlaces([h[q]], "");
    HashBelow(b);
    HashIsZeroIff(a);
    Pow2Shl(8 - r, |b|);
    var top := HashToBig(a + [h[q]]);
    assert Shl(HashToBig(a), 1) == 256 * HashToBig(a);
    ShlBelowIff(top, Pow2(8 - r), HashToBig(b), |b|);
    SmallTop(HashToBig(a), c, r);
    assert forall i :: 0 <= i < q ==> a[i] == h[i];
  }

  function LeadingZerosToTarget(lz: nat): nat {
    if lz >= 256 then 0 else Pow2(256 - lz) - 1
  }

  function GenesisBits(lz: nat): nat { BigToCompact(LeadingZerosToTarget(lz)) }

  lemma GenesisTargetRange(lz: nat)
    requires 1 <= lz <= 255
    ensures 0 < LeadingZerosToTarget(lz) && ByteLen(LeadingZerosToTarget(lz)) <= 32
  {
    ByteLenBelowPow2(LeadingZerosToTarget(lz), 256 - lz, 32);
    Pow2Mono(1, 256 - lz);
  }

  /** Every 32-byte hash that meets the genesis difficulty has at least the configured number of
      leading zero bits: its first bytes are zero, and so are the first bits of the next. */
  lemma GenesisWorkHasLeadingZeros(lz: nat, h: Hash)
    requires 1 <= lz <= 255 && MeetsTarget(h, GenesisBits(lz))
    ensures HashToBig(h) < Pow2(256 - lz)
    ensures |h| == 32 && IsBytes(h) ==> (forall i :: 0 <= i < lz / 8 ==> h[i] as int == 0) && h[lz / 8] as int < Pow2(8 - lz % 8)
  {
    GenesisTargetRange(lz);
    RoundTripNeverRaises(LeadingZerosToTarget(lz));
    if |h| == 32 && IsBytes(h) { LeadingZerosIff(h, lz); }
  }

  lemma {:induction false} ZeroHash(n: nat)
    ensures HashToBig(seq(n, _ => 0 as char)) == 0
  {
    if n > 0 {
      var h := seq(n, _ => 0 as char);
      assert h[..n - 1] == seq(n - 1, _ => 0 as char);
      ZeroHash(n - 1);
    }
  }

  lemma GenesisTargetSize(lz: nat)
    requires 1 <= lz <= 255
    ensures LeadingZerosToTarget(lz) >= TwoTo16 <==> lz <= 239
  {
    Pow2Byte(0);
    Pow2Byte(8);
    assert Pow2(17) == 2 * Pow2(16);
    if lz <= 239 { Pow2Mono(17, 256 - lz); } else { Pow2Mono(256 - lz, 16); }
  }

  /** The genesis file admits 1 to 255 leading zero bits, but from 240 on the encoded target is
      zero and no hash at all can meet it. */
  lemma GenesisMineableIff(lz: nat)
    requires 1 <= lz <= 255
    ensures (exists h: Hash :: |h| == 32 && MeetsTarget(h, GenesisBits(lz))) <==> lz <= 239
  {
    var t := LeadingZerosToTarget(lz);
    GenesisTargetRange(lz);
    GenesisTargetSize(lz);
    if t >= TwoTo24 { RoundTripDropsLowBytes(t); } else { SmallTargets(t); }
    if lz <= 239 {
      var h := seq(32, _ => 0 as char);
      ZeroHash(32);
      assert |h| == 32 && MeetsTarget(h, GenesisBits(lz));
    }
  }

  // ----- work -----

  // The top 64 bits of a target, counted from its first non-zero byte.
  function Top(t: nat): nat {
    if ByteLen(t) >= 8 then Shr(t, ByteLen(t) - 8) else Shl(t, 8 - ByteLen(t))
  }

  lemma TopBounds(t: nat)
    requires t > 0
    ensures TwoTo56 <= Top(t) < TwoTo64
  {
    var n := ByteLen(t);
    if n >= 8 { ByteLenShr(t, n - 8); } else { ByteLenShl(t, 8 - n); }
    ByteLenBounds(Top(t));
    SmallShifts();
  }

  // A decoded target has at most three significant bytes, so its top 64 bits end in zeros.
  lemma TopOfCompact(bits: nat)
    requires CompactToBig(bits) > 0
    ensures Top(CompactToBig(bits)) % 256 == 0
  {
    var exponent, m := (bits / TwoTo24) % 256, bits % TwoTo23;
    ThreeBytes(m);
    if exponent <= 3 {
      ShortShr(m, 3 - exponent);
      TopOfShort(CompactToBig(bits));
    } else {
      TopOfScaled(m, (exponent - 3) % 32);
    }
  }

  lemma ShortShr(m: nat, k: nat)
    requires ByteLen(m) <= 3
    ensures ByteLen(Shr(m, k)) <= 3
  {
    ShrMono(m, m, k);
    ShrBounds(m, k);
    ShlGrows(Shr(m, k), 0, k);
    ByteLenMono(Shr(m, k), m);
  }

  lemma TopOfShort(t: nat)
    requires ByteLen(t) < 8
    ensures Top(t) % 256 == 0
  {
    ShlEven(t, 8 - ByteLen(t));
  }

  lemma {:induction false} ShlZero(k: nat)
    ensures Shl(0, k) == 0
  {
    if k > 0 { ShlZero(k - 1); }
  }

  lemma ShlEven(m: nat, k: nat)
    requires k > 0
    ensures Shl(m, k) % 256 == 0
  {
    assert Shl(m, k) == 256 * Shl(m, k - 1);
  }

  lemma TopOfScaled(m: nat, j: nat)
    requires ByteLen(m) <= 3 && Shl(m, j) > 0
    ensures Top(Shl(m, j)) % 256 == 0
  {
    if m == 0 { ShlZero(j); }
    ByteLenShl(m, j);
    var n := ByteLen(m) + j;
    if n < 8 {
      TopOfShort(Shl(m, j));
    } else {
      ShrOfShl(m, j, n - 8);
      ShlEven(m, j - (n - 8));
    }
  }

  // 64-bit division; the divisor is reduced as 64-bit addition reduces it.
  function Inverse(top: nat): nat
    requires (top + 1) % TwoTo64 != 0
  {
    Quot(MaxWork, (top + 1) % TwoTo64)
  }

  lemma InverseBounds(top: nat)
    requires TwoTo56 <= top < TwoTo64 && top % 256 == 0
    ensures (top + 1) % TwoTo64 == top + 1 && Inverse(top) == Quot(MaxWork, top + 1)
    ensures 1 <= Inverse(top) <= 255
  {
    assert top + 1 <= TwoTo64 - 255;
    QuotBounds(MaxWork, top + 1, 1, 256);
  }

  // Every positive target has a divisor: the addition never wraps to zero.
  function Work64(bits: nat): nat {
    var t := CompactToBig(bits);
    if t == 0 then 0
    else
      TopBounds(t);
      TopOfCompact(bits);
      InverseBounds(Top(t));
      Inverse(Top(t))
  }

  /** Every positive target has a work between 1 and 255; a zero target has none. */
  lemma WorkBounds(bits: nat)
    ensures if CompactToBig(bits) > 0 then 1 <= Work64(bits) <= 255 else Work64(bits) == 0
  {
    var t := CompactToBig(bits);
    if t > 0 {
      TopBounds(t);
      TopOfCompact(bits);
      InverseBounds(Top(t));
    }
  }

  method ComputeWork64(bits: nat) returns (w: nat)
    ensures w == Work64(bits)
  {
    var t := CompactToBig(bits);
    if t == 0 { return 0; }
    var bb := Bytes(t);
    var top;
    if |bb| >= 8 {
      top := LeadingBytes(bb, 8);
      PrefixValue(t, 8);
    } else {
      top := LeadingBytes(bb, |bb|);
      PrefixValue(t, |bb|);
      top := Shl(top, 8 - |bb|);
    }
    TopBounds(t);
    TopOfCompact(bits);
    InverseBounds(top);
    w := Quot(MaxWork, (top + 1) % TwoTo64);
  }

  lemma TopMonotone(t: nat, u: nat)
    requires t <= u && ByteLen(t) == ByteLen(u)
    ensures Top(t) <= Top(u)
  {
    var n := ByteLen(t);
    if n >= 8 { ShrMono(t, u, n - 8); } else { ShlMono(t, u, 8 - n); }
  }

  /** Among targets of the same byte length a smaller target never has less work. */
  lemma WorkMonotoneWithinByteLength(a: nat, b: nat)
    requires 0 < CompactToBig(a) <= CompactToBig(b)
    requires ByteLen(CompactToBig(a)) == ByteLen(CompactToBig(b))
    ensures Work64(a) >= Work64(b)
  {
    var t, u := CompactToBig(a), CompactToBig(b);
    TopMonotone(t, u);
    TopBounds(t);
    TopBounds(u);
    TopOfCompact(a);
    TopOfCompact(b);
    InverseBounds(Top(t));
    InverseBounds(Top(u));
    QuotAntitone(MaxWork, Top(t) + 1, Top(u) + 1);
  }

  lemma WorkOf(bits: nat, w: nat)
    requires CompactToBig(bits) > 0
    requires (Top(CompactToBig(bits)) + 1) * w <= MaxWork < (Top(CompactToBig(bits)) + 1) * (w + 1)
    ensures Work64(bits) == w
  {
    var top := Top(CompactToBig(bits));
    TopBounds(CompactToBig(bits));
    TopOfCompact(bits);
    InverseBounds(top);
    QuotBounds(MaxWork, top + 1, w, w + 1);
  }

  // ----- across byte lengths -----

  // Compact forms of the byte 0x80 and of the byte 0x01, each followed by zeros up to n bytes.
  function HardBits(n: nat): nat
    requires 1 <= n <= 33
  {
    if n == 1 then 3 * TwoTo24 + 0x80 else (n + 1) * TwoTo24 + 0x8000
  }

  function EasyBits(n: nat): nat
    requires 1 <= n <= 34
  {
    if n == 1 then 3 * TwoTo24 + 1 else if n == 2 then 3 * TwoTo24 + 0x100 else n * TwoTo24 + TwoTo16
  }

  lemma HardTarget(n: nat)
    requires 1 <= n <= 33
    ensures CompactToBig(HardBits(n)) == Shl(0x80, n - 1)
  {
    if n == 1 {
      Unpack(3, 0x80);
    } else {
      Unpack(n + 1, 0x8000);
      assert Shl(0x80, 1) == 256 * Shl(0x80, 0) == 0x8000;
      ShlAdd(0x80, 1, n - 2);
      if n > 2 { ExpandLarge(n - 2, 0x8000); }
    }
  }

  lemma EasyTarget(n: nat)
    requires 1 <= n <= 34
    ensures CompactToBig(EasyBits(n)) == Shl(1, n - 1)
  {
    SmallShifts();
    if n == 1 {
      Unpack(3, 1);
    } else if n == 2 {
      Unpack(3, 0x100);
    } else {
      Unpack(n, TwoTo16);
      ShlAdd(1, 2, n - 3);
      if n > 3 { ExpandLarge(n - 3, TwoTo16); }
    }
  }

  lemma TopOfByte(m: nat, i: nat)
    requires 0 < m < 256
    ensures ByteLen(Shl(m, i)) == i + 1 && Top(Shl(m, i)) == Shl(m, 7)
  {
    ThreeBytes(m);
    ByteLenShl(m, i);
    if i + 1 >= 8 { ShrOfShl(m, i, i - 7); } else { ShlAdd(m, i, 7 - i); }
  }

  lemma HardWork(n: nat)
    requires 1 <= n <= 33
    ensures ByteLen(CompactToBig(HardBits(n))) == n && CompactToBig(HardBits(n)) > 0 && Work64(HardBits(n)) == 1
  {
    HardShape(n);
    HardTop();
    WorkOf(HardBits(n), 1);
  }

  lemma HardShape(n: nat)
    requires 1 <= n <= 33
    ensures var t := CompactToBig(HardBits(n)); t > 0 && ByteLen(t) == n && Top(t) == Shl(0x80, 7)
  {
    HardTarget(n);
    TopOfByte(0x80, n - 1);
  }

  lemma HardTop()
    ensures Shl(0x80, 7) == 0x80 * TwoTo56
  {
    ScaleOfOne(0x80, 7);
    SmallShifts();
  }

  lemma EasyWork(n: nat)
    requires 1 <= n <= 34
    ensures ByteLen(CompactToBig(EasyBits(n))) == n && CompactToBig(EasyBits(n)) > 0 && Work64(EasyBits(n)) == 255
  {
    EasyTarget(n);
    TopOfByte(1, n - 1);
    SmallShifts();
    WorkOf(EasyBits(n), 255);
  }

  lemma {:induction false} ScaleOfOne(m: nat, k: nat)
    ensures Shl(m, k) == m * Shl(1, k)
    decreases k
  {
    if k > 0 { ScaleOfOne(m, k - 1); }
  }

  /** For every two byte lengths there is a harder target of the shorter length with less work
      than a target of the longer one. */
  lemma WorkFallsAcross(j: nat, k: nat)
    requires 1 <= j < k <= 34
    ensures CompactToBig(HardBits(j)) < CompactToBig(EasyBits(k)) && Work64(HardBits(j)) < Work64(EasyBits(k))
  {
    HardWork(j);
    EasyWork(k);
    var t, u := CompactToBig(HardBits(j)), CompactToBig(EasyBits(k));
    if u <= t { ByteLenMono(u, t); }
  }

  // A decoded target has at most 34 bytes.
  lemma CompactLength(bits: nat)
    ensures ByteLen(CompactToBig(bits)) <= 34
  {
    var exponent, m := (bits / TwoTo24) % 256, bits % TwoTo23;
    ThreeBytes(m);
    if exponent <= 3 {
      ShortShr(m, 3 - exponent);
    } else if m == 0 {
      ShlZero((exponent - 3) % 32);
    } else {
      ByteLenShl(m, (exponent - 3) % 32);
    }
  }

  // Among targets of these two byte lengths a smaller one never has less work.
  ghost predicate MonotoneAcross(j: nat, k: nat) {
    forall a: nat, b: nat :: OfLength(a, j, k) && OfLength(b, j, k) && CompactToBig(a) <= CompactToBig(b) ==> Work64(a) >= Work64(b)
  }

  predicate OfLength(bits: nat, j: nat, k: nat) { ByteLen(CompactToBig(bits)) == j || ByteLen(CompactToBig(bits)) == k }

  /** The estimate respects the order of the targets of two byte lengths exactly when they are
      one; 1 to 34 are all the lengths a positive target can have. */
  lemma WorkMonotoneIff(j: nat, k: nat)
    requires 1 <= j <= k <= 34
    ensures MonotoneAcross(j, k) <==> j == k
  {
    if j == k {
      forall a: nat, b: nat | OfLength(a, j, k) && OfLength(b, j, k) && CompactToBig(a) <= CompactToBig(b)
        ensures Work64(a) >= Work64(b)
      {
        WorkMonotoneWithinByteLength(a, b);
      }
    } else {
      WorkFallsAcross(j, k);
      HardWork(j);
      EasyWork(k);
      assert OfLength(HardBits(j), j, k) && OfLength(EasyBits(k), j, k);
    }
  }

  function Cumulative(parent: nat, add: nat): nat {
    var sum := (parent + add) % TwoTo64;
    if sum < parent then MaxWork else sum
  }

  /** The wrapped sum is detected exactly when the true sum does not fit. */
  lemma CumulativeSaturates(parent: nat, add: nat)
    requires parent <= MaxWork && add <= MaxWork
    ensures Cumulative(parent, add) == if parent + add <= MaxWork then parent + add else MaxWork
  {
    if parent + add > MaxWork {
      assert (parent + add) % TwoTo64 == parent + add - TwoTo64;
    }
  }
}
