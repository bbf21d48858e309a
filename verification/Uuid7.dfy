/** The uuid7 cutoff of the drift comparison: the largest uuid7 (section 5.7 of RFC 9562) minted at or
    before a moment, over unbounded integers as in Python. A moment is its whole millisecond since the
    epoch. */
module Uuid7 {

  function Pow2(n: nat): nat {
    if n == 0 then 1 else 2 * Pow2(n - 1)
  }

  function Shl(x: nat, n: nat): nat {
    x * Pow2(n)
  }

  /** Bitwise or. */
  function Or(a: nat, b: nat): nat
    decreases a + b
  {
    if a == 0 then b else if b == 0 then a
    else 2 * Or(a / 2, b / 2) + (if a % 2 == 1 || b % 2 == 1 then 1 else 0)
  }

  /** Bits set below a multiple of their power are added to it. */
  lemma {:induction false} OrBelow(q: nat, n: nat, b: nat)
    requires b < Pow2(n)
    ensures Or(Shl(q, n), b) == Shl(q, n) + b
  {
    if n > 0 {
      var half := Shl(q, n - 1);
      assert Shl(q, n) == 2 * half;
      OrBelow(q, n - 1, b / 2);
    }
  }

  const P48: nat := 0x1_0000_0000_0000
  const P62: nat := 0x4000_0000_0000_0000
  const P64: nat := 0x1_0000_0000_0000_0000
  const P76: nat := 0x1000_0000_0000_0000_0000
  const P80: nat := 0x1_0000_0000_0000_0000_0000

  /** Version 7 in bits 76 to 79, variant 10 in bits 62 and 63, 128 bits in all. */
  predicate IsUuid7(u: nat) {
    u < P48 * P80 && (u / P76) % 16 == 7 && (u / P62) % 4 == 2
  }

  /** The first 48 bits. */
  function Timestamp(u: nat): nat {
    u / P80
  }

  /** The largest a uuid7 can be below its timestamp. */
  const TOP: nat := 7 * P76 + 0xFFF * P64 + 2 * P62 + (P62 - 1)

  lemma AtLeastOnce(d: int, p: nat)
    requires d >= 1
    ensures d * p >= p
  {
    assert d * p == (d - 1) * p + p;
    assert (d - 1) * p >= 0;
  }

  lemma Quotient(u: nat, q: nat, rest: nat, p: nat)
    requires p > 0 && u == q * p + rest && rest < p
    ensures u / p == q && u % p == rest
  {
    var d := u / p - q;
    assert d * p == (u / p) * p - q * p;
    assert d * p == rest - u % p;
    assert (-d) * p == -(d * p);
    if d >= 1 { AtLeastOnce(d, p); } else if d <= -1 { AtLeastOnce(-d, p); }
  }

  /** Timestamp, version, the next fourteen bits and the last sixty-two. */
  lemma Fields(t: nat, version: nat, w: nat, z: nat)
    requires version < 16 && w < 0x4000 && z < P62
    ensures var u := t * P80 + version * P76 + w * P62 + z;
      u / P80 == t && u % P80 == u - t * P80 && (u / P76) % 16 == version && (u / P62) % 4 == w % 4
  {
    var u := t * P80 + version * P76 + w * P62 + z;
    Quotient(u, t, version * P76 + w * P62 + z, P80);
    Quotient(u, t * 16 + version, w * P62 + z, P76);
    Quotient(u, t * 0x4_0000 + version * 0x4000 + w, z, P62);
    Quotient(t * 16 + version, t, version, 16);
    Quotient(t * 0x4_0000 + version * 0x4000 + w, t * 0x1_0000 + version * 0x1000 + w / 4, w % 4, 4);
  }

  lemma LowParts(low: nat)
    requires low < P80
    ensures var w, z := low % P76 / P62, low % P76 % P62;
      low / P76 < 16 && w < 0x4000 && z < P62 && low == (low / P76) * P76 + w * P62 + z
  {
  }

  lemma LowIsBounded(u: nat)
    requires IsUuid7(u)
    ensures u % P80 <= TOP
  {
    var t, low := u / P80, u % P80;
    var version, w, z := low / P76, low % P76 / P62, low % P76 % P62;
    LowParts(low);
    assert u == t * P80 + version * P76 + w * P62 + z;
    Fields(t, version, w, z);
    LowIsSmall(version, w, z);
  }

  lemma LowIsSmall(version: nat, w: nat, z: nat)
    requires version == 7 && w < 0x4000 && w % 4 == 2 && z < P62
    ensures version * P76 + w * P62 + z <= TOP
  {
  }

  function Bound(ms: int): nat {
    (ms % P48) * P80 + TOP
  }

  lemma {:induction false} Pow2Adds(m: nat, n: nat)
    ensures Pow2(m + n) == Pow2(m) * Pow2(n)
  {
    if m > 0 {
      Pow2Adds(m - 1, n);
      Doubled(Pow2(m - 1), Pow2(n));
    }
  }

  lemma Doubled(a: nat, b: nat)
    ensures (2 * a) * b == 2 * (a * b)
  {
  }

  lemma Powers()
    ensures Pow2(2) == 4 && Pow2(4) == 16 && Pow2(12) == 4096
    ensures Pow2(62) == P62 && Pow2(64) == P64 && Pow2(76) == P76 && Pow2(80) == P80
  {
    assert Pow2(16) == 0x1_0000 && Pow2(14) == 0x4000 && Pow2(12) == 0x1000;
    Pow2Adds(16, 16);
    Pow2Adds(32, 16);
    Pow2Adds(48, 14);
    Pow2Adds(48, 16);
    Pow2Adds(64, 12);
    Pow2Adds(64, 16);
  }

  /** Or-ing a field in right below a shifted number appends it. */
  lemma OrField(q: nat, n: nat, width: nat, field: nat)
    requires width <= n && field < Pow2(width)
    ensures Or(Shl(q, n), Shl(field, n - width)) == Shl(q * Pow2(width) + field, n - width)
  {
    var p := Pow2(n - width);
    Pow2Adds(width, n - width);
    Pow2Positive(n - width);
    Below(field, Pow2(width), p);
    OrBelow(q, n, field * p);
    Distribute(q, Pow2(width), field, p);
  }

  lemma Below(f: nat, w: nat, p: nat)
    requires f < w && p > 0
    ensures f * p < w * p
  {
    AtLeastOnce(w - f, p);
    assert (w - f) * p == w * p - f * p;
  }

  lemma Distribute(q: nat, w: nat, f: nat, p: nat)
    ensures q * (w * p) + f * p == (q * w + f) * p
  {
    assert q * (w * p) == (q * w) * p;
  }

  lemma {:induction false} Pow2Positive(n: nat)
    ensures Pow2(n) > 0
  {
    if n > 0 { Pow2Positive(n - 1); }
  }

  /** `value |= field << shift`, where `value` ends right above the field. */
  method SetField(value: nat, field: nat, shift: nat, ghost q: nat, ghost width: nat) returns (r: nat)
    requires value == Shl(q, shift + width) && field < Pow2(width)
    ensures r == Shl(q * Pow2(width) + field, shift)
  {
    OrField(q, shift + width, width, field);
    r := Or(value, Shl(field, shift));
  }

  lemma Summed(t: nat)
    ensures (((t * 16 + 7) * 4096 + 0xFFF) * 4 + 2) * P62 + (P62 - 1) == t * P80 + TOP
  {
  }

  /** uuid7_upper_bound(). Masking with 48 ones is the remainder, for negative numbers too. */
  method UpperBound(ms: int) returns (value: nat)
    ensures value == Bound(ms)
  {
    Powers();
    var masked := ms % P48;
    ghost var q := masked;
    value := Shl(masked, 80);
    value := SetField(value, 0x7, 76, q, 4);
    q := q * 16 + 7;
    value := SetField(value, 0xFFF, 64, q, 12);
    q := q * 4096 + 0xFFF;
    value := SetField(value, 0x2, 62, q, 2);
    q := q * 4 + 2;
    value := SetField(value, Shl(1, 62) - 1, 0, q, 62);
    Summed(masked);
  }

  /** The bound is itself a uuid7 of the masked millisecond, and no uuid7 of it is larger. */
  lemma BoundIsLargest(ms: int, u: nat)
    ensures IsUuid7(Bound(ms)) && Timestamp(Bound(ms)) == ms % P48
    ensures IsUuid7(u) && Timestamp(u) == ms % P48 ==> u <= Bound(ms)
  {
    Fields(ms % P48, 7, 0x3FFE, P62 - 1);
    if IsUuid7(u) { LowIsBounded(u); }
  }

  predicate MintedBy(u: nat, ms: int) {
    Timestamp(u) <= ms
  }

  /** At or under the value means minted at or before the moment, for every uuid7. */
  ghost predicate IsCutoff(value: nat, ms: int) {
    forall u: nat | IsUuid7(u) :: u <= value <==> MintedBy(u, ms)
  }

  lemma CutoffAt(ms: int, u: nat)
    requires 0 <= ms < P48 && IsUuid7(u)
    ensures u <= Bound(ms) <==> MintedBy(u, ms)
  {
    LowIsBounded(u);
  }

  /** The bound is the cutoff it is meant to be exactly for moments from the epoch until the 48 bits
      run out, and beyond them only where every bit of the timestamp is set. */
  lemma CutoffExactly(ms: int)
    ensures IsCutoff(Bound(ms), ms) <==> 0 <= ms && (ms < P48 || ms % P48 == P48 - 1)
  {
    BoundIsLargest(ms, 0);
    if 0 <= ms < P48 {
      forall u: nat | IsUuid7(u) ensures u <= Bound(ms) <==> MintedBy(u, ms) { CutoffAt(ms, u); }
    } else if ms < 0 {
      assert !MintedBy(Bound(ms), ms);
    } else {
      BeyondTheBits(ms);
    }
  }

  lemma BeyondTheBits(ms: int)
    requires ms >= P48
    ensures IsCutoff(Bound(ms), ms) <==> ms % P48 == P48 - 1
  {
    var last := Bound(P48 - 1);
    BoundIsLargest(P48 - 1, 0);
    if ms % P48 == P48 - 1 {
      forall u: nat | IsUuid7(u) ensures u <= Bound(ms) <==> MintedBy(u, ms) { CutoffAt(P48 - 1, u); }
    } else {
      assert IsUuid7(last) && MintedBy(last, ms) && last > Bound(ms);
    }
  }
}
