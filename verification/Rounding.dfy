/**
 Rounding to a bounded number of significant bits, ties to even: what a Go
 conversion to float64 or float32 does to a value (IEEE 754-2008, section 4.3.1).
 Magnitudes are whole numbers of some fixed unit, so every statement here is exact.
 */
module Rounding {

  function Pow2(k: nat): (p: nat)
    ensures p >= 1
  {
    if k == 0 then 1 else 2 * Pow2(k - 1)
  }

  function Abs(u: int): nat {
    if u < 0 then -u else u
  }

  /** The number of binary digits of u, as Go's bits.Len. */
  function BitLen(u: nat): nat {
    if u == 0 then 0 else 1 + BitLen(u / 2)
  }

  /** The exponent of the spacing of the representable magnitudes around u, with p
      significant bits and no spacing below 2^f. */
  function SpacingExp(u: nat, p: nat, f: nat): (k: nat)
    ensures k >= f
  {
    if BitLen(u) - p > f then BitLen(u) - p else f
  }

  function Spacing(u: nat, p: nat, f: nat): (q: nat)
    ensures q >= 1
  {
    Pow2(SpacingExp(u, p, f))
  }

  /** u can be written exactly with p significant bits and unit 2^f. */
  predicate Fits(u: int, p: nat, f: nat) {
    Abs(u) % Spacing(Abs(u), p, f) == 0
  }

  /** The multiple of q nearest to u, a tie going to the even multiple. */
  function NearestMultiple(u: nat, q: nat): nat
    requires q >= 1
  {
    var lo, rest := u / q, u % q;
    if 2 * rest < q || (2 * rest == q && lo % 2 == 0) then u - rest else u - rest + q
  }

  function Round(u: int, p: nat, f: nat): int {
    var r: int := NearestMultiple(Abs(u), Spacing(Abs(u), p, f));
    if u < 0 then -r else r
  }

  // ----- powers of two and digit counts

  lemma {:induction false} Pow2Add(a: nat, b: nat)
    ensures Pow2(a + b) == Pow2(a) * Pow2(b)
  {
    if a > 0 {
      Pow2Add(a - 1, b);
      calc {
        Pow2(a + b);
        2 * (Pow2(a - 1) * Pow2(b));
        (2 * Pow2(a - 1)) * Pow2(b);
        Pow2(a) * Pow2(b);
      }
    }
  }

  lemma {:induction false} Pow2Monotone(a: nat, b: nat)
    requires a <= b
    ensures Pow2(a) <= Pow2(b)
    ensures a < b ==> 2 * Pow2(a) <= Pow2(b)
  {
    if a < b {
      Pow2Monotone(a, b - 1);
    }
  }

  /** The smaller of two powers of two divides the larger. */
  lemma Pow2Divides(a: nat, b: nat) returns (c: nat)
    requires a <= b
    ensures Pow2(b) == c * Pow2(a)
    ensures c == Pow2(b - a)
  {
    Pow2Add(b - a, a);
    c := Pow2(b - a);
  }

  lemma {:induction false} BitLenBounds(u: nat)
    ensures u < Pow2(BitLen(u))
    ensures u > 0 ==> BitLen(u) > 0 && Pow2(BitLen(u) - 1) <= u
  {
    if u > 0 {
      BitLenBounds(u / 2);
    }
  }

  /** The bounds of BitLenBounds determine the digit count. */
  lemma BitLenUnique(u: nat, k: nat)
    requires k > 0 && Pow2(k - 1) <= u < Pow2(k)
    ensures BitLen(u) == k
  {
    BitLenBounds(u);
    if BitLen(u) < k {
      Pow2Monotone(BitLen(u), k - 1);
    } else if k < BitLen(u) {
      Pow2Monotone(k, BitLen(u) - 1);
    }
  }

  lemma Pow2Less(a: nat, b: nat)
    requires Pow2(a) < Pow2(b)
    ensures a < b
  {
    if b <= a {
      Pow2Monotone(b, a);
    }
  }

  lemma BitLenMonotone(u: nat, v: nat)
    requires u <= v
    ensures BitLen(u) <= BitLen(v)
  {
    if u > 0 {
      BitLenBounds(u);
      BitLenBounds(v);
      Pow2Less(BitLen(u) - 1, BitLen(v));
    }
  }

  /** A number below 2^k has at most k digits. */
  lemma BitLenAtMost(u: nat, k: nat)
    requires u < Pow2(k)
    ensures BitLen(u) <= k
  {
    if u > 0 {
      BitLenBounds(u);
      Pow2Less(BitLen(u) - 1, k);
    }
  }

  // ----- nearest multiples

  lemma MulGap(a: int, b: int, q: nat)
    requires a < b
    ensures a * q + q <= b * q
  {
    assert (a + 1) * q <= b * q;
  }

  lemma MulAssoc(a: int, b: int, c: int)
    ensures a * (b * c) == (a * b) * c
  {
  }

  lemma DivModUnique(u: int, q: nat, d: int, r: nat)
    requires q >= 1 && r < q && u == d * q + r
    ensures u / q == d && u % q == r
  {
    var d' := u / q;
    assert u == d' * q + u % q;
    if d' < d {
      MulGap(d', d, q);
    } else if d < d' {
      MulGap(d, d', q);
    }
  }

  lemma MultipleOf(c: int, q: nat)
    requires q >= 1
    ensures (c * q) % q == 0
    ensures (c * q) / q == c
  {
    DivModUnique(c * q, q, c, 0);
  }

  /** u lies in [base, base + q) with base a multiple of q, and the result is one of the ends. */
  lemma Bracket(u: nat, q: nat) returns (lo: nat, base: nat)
    requires q >= 1
    ensures lo == u / q && base == lo * q && base + q == (lo + 1) * q
    ensures base + u % q == u
    ensures NearestMultiple(u, q) == base || NearestMultiple(u, q) == base + q
    ensures base % q == 0 && (base + q) % q == 0
  {
    lo, base := u / q, (u / q) * q;
    assert u == (u / q) * q + u % q;
    MultipleOf(lo, q);
    MultipleOf(lo + 1, q);
    assert (lo + 1) * q == lo * q + q;
  }

  /** The result is a multiple of q, off by at most half of q. */
  lemma NearestMultipleBounds(u: nat, q: nat)
    requires q >= 1
    ensures NearestMultiple(u, q) % q == 0
    ensures 2 * Abs(NearestMultiple(u, q) - u) <= q
  {
    var lo, base := Bracket(u, q);
  }

  /** A multiple of q lies on one side of the bracket around u. */
  lemma MultipleOutsideBracket(m: int, lo: nat, q: nat)
    requires q >= 1 && m % q == 0
    ensures m <= lo * q || (lo + 1) * q <= m
  {
    var c := m / q;
    assert m == c * q + m % q;
    if c < lo {
      MulGap(c, lo, q);
    } else if lo < c {
      MulGap(lo, c, q);
    }
  }

  /** No multiple of q is closer. */
  lemma NearestMultipleNearest(u: nat, q: nat, m: int)
    requires q >= 1 && m % q == 0
    ensures Abs(NearestMultiple(u, q) - u) <= Abs(m - u)
  {
    var lo, base := Bracket(u, q);
    MultipleOutsideBracket(m, lo, q);
  }

  lemma NearestMultipleMonotone(u: nat, v: nat, q: nat)
    requires q >= 1 && u <= v
    ensures NearestMultiple(u, q) <= NearestMultiple(v, q)
  {
    var a, low := Bracket(u, q);
    var b, high := Bracket(v, q);
    if a < b {
      MulGap(a, b, q);
    } else if b < a {
      MulGap(b, a, q);
    }
  }

  // ----- rounding

  /** Rounding leaves a value alone exactly when it needs no more than p bits. */
  lemma RoundFixesExactlyFits(u: int, p: nat, f: nat)
    ensures Round(u, p, f) == u <==> Fits(u, p, f)
  {
    var lo, base := Bracket(Abs(u), Spacing(Abs(u), p, f));
  }

  /** Both ends of the binade of u are multiples of the spacing at u. */
  lemma BinadeEnds(u: nat, p: nat, f: nat)
    requires p >= 1
    requires SpacingExp(u, p, f) > f
    ensures Pow2(BitLen(u)) % Spacing(u, p, f) == 0
    ensures u > 0 && Pow2(BitLen(u) - 1) % Spacing(u, p, f) == 0
  {
    var k := SpacingExp(u, p, f);
    var c := Pow2Divides(k, BitLen(u));
    MultipleOf(c, Pow2(k));
    var d := Pow2Divides(k, BitLen(u) - 1);
    MultipleOf(d, Pow2(k));
  }

  /** A number of at most b digits rounds to at most 2^b. */
  lemma NearestStaysInBinade(u: nat, p: nat, f: nat)
    requires p >= 1
    requires SpacingExp(u, p, f) > f
    ensures Pow2(BitLen(u) - 1) <= NearestMultiple(u, Spacing(u, p, f)) <= Pow2(BitLen(u))
  {
    var q := Spacing(u, p, f);
    BitLenBounds(u);
    BinadeEnds(u, p, f);
    NearestMultipleMonotone(Pow2(BitLen(u) - 1), u, q);
    NearestMultipleMonotone(u, Pow2(BitLen(u)), q);
    NearestMultipleBounds(Pow2(BitLen(u)), q);
    NearestMultipleNearest(Pow2(BitLen(u)), q, Pow2(BitLen(u)));
    NearestMultipleNearest(Pow2(BitLen(u) - 1), q, Pow2(BitLen(u) - 1));
  }

  /** The rounded value itself needs no more than p bits. */
  lemma RoundFits(u: int, p: nat, f: nat)
    requires p >= 1
    ensures Fits(Round(u, p, f), p, f)
  {
    var a := Abs(u);
    var q := Spacing(a, p, f);
    var r := NearestMultiple(a, q);
    NearestMultipleBounds(a, q);
    assert Abs(Round(u, p, f)) == r;
    if SpacingExp(a, p, f) > f {
      NearestStaysInBinade(a, p, f);
      if r == Pow2(BitLen(a)) {
        PowerFits(BitLen(a), p, f);
      } else {
        BitLenUnique(r, BitLen(a));
      }
    } else {
      MultipleFits(a, p, f);
    }
  }

  lemma PowerFits(k: nat, p: nat, f: nat)
    requires p >= 1 && k >= f
    ensures Fits(Pow2(k), p, f)
  {
    Pow2Monotone(k, k + 1);
    BitLenUnique(Pow2(k), k + 1);
    var s := SpacingExp(Pow2(k), p, f);
    var c := Pow2Divides(s, k);
    MultipleOf(c, Pow2(s));
  }

  /** Near the bottom of the range the spacing is the unit 2^f, and rounding to
      that unit cannot need more than p digits. */
  lemma MultipleFits(a: nat, p: nat, f: nat)
    requires p >= 1
    requires SpacingExp(a, p, f) == f
    ensures Fits(NearestMultiple(a, Pow2(f)), p, f)
  {
    NearestMultipleBounds(a, Pow2(f));
    BottomBound(a, p, f);
    NearestBelowPower(a, f, p + f);
    SmallFits(NearestMultiple(a, Pow2(f)), p, f);
  }

  lemma BottomBound(a: nat, p: nat, f: nat)
    requires SpacingExp(a, p, f) == f
    ensures a <= Pow2(p + f)
  {
    BitLenBounds(a);
    Pow2Monotone(BitLen(a), p + f);
  }

  lemma NearestBelowPower(a: nat, f: nat, t: nat)
    requires f <= t && a <= Pow2(t)
    ensures NearestMultiple(a, Pow2(f)) <= Pow2(t)
  {
    var c := Pow2Divides(f, t);
    MultipleOf(c, Pow2(f));
    NearestMultipleMonotone(a, Pow2(t), Pow2(f));
  }

  /** Up to 2^(p+f), multiples of 2^f are exact. */
  lemma SmallFits(u: int, p: nat, f: nat)
    requires p >= 1 && Abs(u) <= Pow2(p + f) && Abs(u) % Pow2(f) == 0
    ensures Fits(u, p, f)
  {
    var a := Abs(u);
    if a == Pow2(p + f) {
      PowerFits(p + f, p, f);
    } else {
      BitLenAtMost(a, p + f);
    }
  }

  lemma RoundIdempotent(u: int, p: nat, f: nat)
    requires p >= 1
    ensures Round(Round(u, p, f), p, f) == Round(u, p, f)
  {
    RoundFits(u, p, f);
    RoundFixesExactlyFits(Round(u, p, f), p, f);
  }

  /** A value that fits in p bits is a multiple of the spacing at u, or it is
      farther from u than the rounded value. */
  lemma FittingMultipleOrFar(u: nat, p: nat, f: nat, b: nat)
    requires p >= 1 && Fits(b, p, f)
    ensures b % Spacing(u, p, f) == 0
         || Abs(NearestMultiple(u, Spacing(u, p, f)) - u) < Abs(b - u)
  {
    var k := SpacingExp(u, p, f);
    var q := Pow2(k);
    if BitLen(b) >= BitLen(u) {
      DivisibleByLess(b, SpacingExp(b, p, f), k);
    } else if k > f {
      var bottom := Pow2(BitLen(u) - 1);
      BinadeEnds(u, p, f);
      BitLenBounds(u);
      BitLenBounds(b);
      Pow2Monotone(BitLen(b), BitLen(u) - 1);
      NearestMultipleNearest(u, q, bottom);
    }
  }

  /** Round returns a nearest value among all those that fit in p bits. */
  lemma RoundIsNearest(u: int, p: nat, f: nat, m: int)
    requires p >= 1 && Fits(m, p, f)
    ensures Abs(Round(u, p, f) - u) <= Abs(m - u)
  {
    FittingMultipleOrFar(Abs(u), p, f, Abs(m));
    if Abs(m) % Spacing(Abs(u), p, f) == 0 {
      NearestMultipleNearest(Abs(u), Spacing(Abs(u), p, f), Abs(m));
    }
  }

  lemma NearestTiesToEven(a: nat, q: nat, b: nat)
    requires q >= 1 && b % q == 0
    requires b != NearestMultiple(a, q) && Abs(b - a) == Abs(NearestMultiple(a, q) - a)
    ensures NearestMultiple(a, q) / q % 2 == 0
  {
    var lo, base := Bracket(a, q);
    MultipleOutsideBracket(b, lo, q);
    MultipleOf(lo, q);
    MultipleOf(lo + 1, q);
  }

  /** When another value that fits is just as near, the one returned is an even
      multiple of the spacing. */
  lemma RoundTiesToEven(u: int, p: nat, f: nat, m: int)
    requires p >= 1 && Fits(m, p, f)
    requires m != Round(u, p, f) && Abs(m - u) == Abs(Round(u, p, f) - u)
    ensures Abs(Round(u, p, f)) / Spacing(Abs(u), p, f) % 2 == 0
  {
    FittingMultipleOrFar(Abs(u), p, f, Abs(m));
    NearestMultipleNearest(Abs(u), Spacing(Abs(u), p, f), 0);
    NearestTiesToEven(Abs(u), Spacing(Abs(u), p, f), Abs(m));
  }

  lemma RoundErrorBound(u: int, p: nat, f: nat)
    ensures 2 * Abs(Round(u, p, f) - u) <= Spacing(Abs(u), p, f)
  {
    NearestMultipleBounds(Abs(u), Spacing(Abs(u), p, f));
  }

  lemma RoundMonotoneNat(u: nat, v: nat, p: nat, f: nat)
    requires p >= 1 && u <= v
    ensures Round(u, p, f) <= Round(v, p, f)
  {
    BitLenMonotone(u, v);
    if SpacingExp(u, p, f) == SpacingExp(v, p, f) {
      NearestMultipleMonotone(u, v, Spacing(u, p, f));
    } else {
      // v lies in a higher binade, whose bottom separates the two results
      NearestStaysInBinade(v, p, f);
      var bottom := Pow2(BitLen(v) - 1);
      BitLenBounds(v);
      BitLenBounds(u);
      Pow2Monotone(BitLen(u), BitLen(v) - 1);
      PowerFits(BitLen(v) - 1, p, f);
      var c := Pow2Divides(SpacingExp(u, p, f), BitLen(v) - 1);
      MultipleOf(c, Spacing(u, p, f));
      NearestMultipleMonotone(u, bottom, Spacing(u, p, f));
      NearestMultipleNearest(bottom, Spacing(u, p, f), bottom);
    }
  }

  lemma RoundMonotone(u: int, v: int, p: nat, f: nat)
    requires p >= 1 && u <= v
    ensures Round(u, p, f) <= Round(v, p, f)
  {
    if 0 <= u {
      RoundMonotoneNat(u, v, p, f);
    } else if v <= 0 {
      RoundMonotoneNat(-v, -u, p, f);
    }
  }

  // ----- changing the unit or the number of bits

  lemma {:induction false} ScaledBitLen(u: nat, e: nat)
    requires u > 0
    ensures u * Pow2(e) > 0 && BitLen(u * Pow2(e)) == BitLen(u) + e
  {
    BitLenBounds(u);
    var k := BitLen(u);
    Pow2Add(k, e);
    Pow2Add(k - 1, e);
    MulGap(u, Pow2(k), Pow2(e));
    MulLe(Pow2(k - 1), u, Pow2(e));
    BitLenUnique(u * Pow2(e), k + e);
  }

  lemma MulLe(a: int, b: int, q: nat)
    requires a <= b
    ensures a * q <= b * q
  {
  }

  lemma MulCancel(a: int, b: int, q: nat)
    requires q >= 1 && a * q == b * q
    ensures a == b
  {
    if a < b {
      MulGap(a, b, q);
    } else if b < a {
      MulGap(b, a, q);
    }
  }

  /** A coarser spacing implies every finer one. */
  lemma DivisibleByLess(u: nat, k: nat, j: nat)
    requires j <= k && u % Pow2(k) == 0
    ensures u % Pow2(j) == 0
  {
    var c := Pow2Divides(j, k);
    assert u == (u / Pow2(k)) * Pow2(k);
    MulAssoc(u / Pow2(k), c, Pow2(j));
    MultipleOf((u / Pow2(k)) * c, Pow2(j));
  }

  /** What fits in fewer bits, over a coarser unit, fits in more. */
  lemma FitsInMore(u: int, p: nat, f: nat, p': nat, f': nat)
    requires p <= p' && f' <= f && Fits(u, p, f)
    ensures Fits(u, p', f')
  {
    DivisibleByLess(Abs(u), SpacingExp(Abs(u), p, f), SpacingExp(Abs(u), p', f'));
  }

  lemma AbsScaled(n: int, q: nat)
    ensures Abs(n * q) == Abs(n) * q
  {
  }

  lemma DivisibleUnscaled(a: nat, k: nat, e: nat)
    requires (a * Pow2(e)) % Pow2(k + e) == 0
    ensures a % Pow2(k) == 0
  {
    Pow2Add(k, e);
    var c := a * Pow2(e) / Pow2(k + e);
    assert a * Pow2(e) == c * Pow2(k + e);
    MulAssoc(c, Pow2(k), Pow2(e));
    MulCancel(a, c * Pow2(k), Pow2(e));
    MultipleOf(c, Pow2(k));
  }

  lemma UnscaleNat(a: nat, e: nat, x: nat, p: nat, f: nat)
    requires a > 0 && x == a * Pow2(e)
    requires x % Spacing(x, p, f) == 0
    ensures a % Spacing(a, p, 0) == 0
  {
    ScaledBitLen(a, e);
    var k := SpacingExp(a, p, 0);
    if k > 0 {
      DivisibleByLess(x, SpacingExp(x, p, f), k + e);
      DivisibleUnscaled(a, k, e);
    }
  }

  /** If n fits in p bits counted in units of 2^-e, it fits in p bits. */
  lemma UnscaleFits(n: int, e: nat, p: nat, f: nat)
    requires Fits(n * Pow2(e), p, f)
    ensures Fits(n, p, 0)
  {
    AbsScaled(n, Pow2(e));
    if n != 0 {
      UnscaleNat(Abs(n), e, Abs(n * Pow2(e)), p, f);
    }
  }
}
