/** What a number becomes under `float` and `double` (pkg/kafka/schema_registry.go:614-621, 634-656). */
module AvroFloats {
  import opened Rounding
  import opened AvroValues
  import opened AvroLaws

  /** a is c times 2^e: c has at most p bits, and the unit is no finer than 2^f. */
  predicate Scaled(a: nat, p: nat, f: nat, c: nat, e: nat) {
    e >= f && c < Pow2(p) && a == c * Pow2(e)
  }

  /** Fits said without binades. */
  lemma FitsExact(u: int, p: nat, f: nat)
    requires p >= 1
    ensures Fits(u, p, f) <==> exists c: nat, e: nat :: Scaled(Abs(u), p, f, c, e)
  {
    if Fits(u, p, f) {
      var c, e := FitsScaled(Abs(u), p, f);
    }
    if c: nat, e: nat :| Scaled(Abs(u), p, f, c, e) {
      ScaledFits(Abs(u), p, f, c, e);
    }
  }

  lemma FitsScaled(a: nat, p: nat, f: nat) returns (c: nat, e: nat)
    requires p >= 1 && Fits(a, p, f)
    ensures Scaled(a, p, f, c, e)
  {
    e := SpacingExp(a, p, f);
    c := a / Spacing(a, p, f);
    BitLenBounds(a);
    Pow2Monotone(BitLen(a), p + e);
    Pow2Add(p, e);
    DigitsBound(a, Pow2(e), Pow2(p), c);
  }

  lemma DigitsBound(a: nat, q: nat, bound: nat, c: nat)
    requires q >= 1 && a % q == 0 && c == a / q && a < bound * q
    ensures c < bound && a == c * q
  {
    assert a == (a / q) * q + a % q;
    if c >= bound {
      MulLe(bound, c, q);
    }
  }

  lemma ScaledFits(a: nat, p: nat, f: nat, c: nat, e: nat)
    requires p >= 1 && Scaled(a, p, f, c, e)
    ensures Fits(a, p, f)
  {
    Pow2Add(p, e);
    MulGap(c, Pow2(p), Pow2(e));
    BitLenAtMost(a, p + e);
    MultipleOf(c, Pow2(e));
    DivisibleByLess(a, e, SpacingExp(a, p, f));
  }

  /** y is a nearest value to u among those of p bits over 2^f, and even on a tie. */
  ghost predicate Nearest(u: int, y: int, p: nat, f: nat) {
    && Fits(y, p, f)
    && (forall m: int :: Fits(m, p, f) ==> Abs(y - u) <= Abs(m - u))
    && (forall m: int :: Fits(m, p, f) && m != y && Abs(m - u) == Abs(y - u) ==>
          Abs(y) / Spacing(Abs(u), p, f) % 2 == 0)
  }

  lemma RoundNearest(u: int, p: nat, f: nat)
    requires p >= 1
    ensures Nearest(u, Round(u, p, f), p, f)
  {
    RoundFits(u, p, f);
    forall m: int | Fits(m, p, f)
      ensures Abs(Round(u, p, f) - u) <= Abs(m - u)
      ensures m != Round(u, p, f) && Abs(m - u) == Abs(Round(u, p, f) - u) ==>
                Abs(Round(u, p, f)) / Spacing(Abs(u), p, f) % 2 == 0
    {
      RoundIsNearest(u, p, f, m);
      if m != Round(u, p, f) && Abs(m - u) == Abs(Round(u, p, f) - u) {
        RoundTiesToEven(u, p, f, m);
      }
    }
  }

  /** Under `double`, an integer becomes the nearest integer of 53 bits, and a float
      keeps its value. */
  lemma DoubleResult(env: Env, v: Value)
    requires EnvOk(env) && IsNumber(v)
    ensures Normalize(env, DoubleType, v).Float64?
    ensures var r := Normalize(env, DoubleType, v).d;
            match v
            case Int(_, n) => exists k: int :: r == Fin(k * ONE) && Nearest(n, k, F64_BITS, 0)
            case Uint(_, u) => exists k: int :: r == Fin(k * ONE) && Nearest(u, k, F64_BITS, 0)
            case Float32(f) => r == f
            case Float64(d) => r == d
  {
    if v.Int? || v.Uint? {
      RoundNearest(Whole(v), F64_BITS, 0);
    }
  }

  /** Half the spacing of the largest float32 values is 2^1177 units. */
  const HALF_SPACING_EXP: nat := 1177

  /** From this magnitude on a float64 is too large for a float32: halfway from the
      largest float32, 2^128 - 2^104, to 2^128. */
  const FLOAT32_OVERFLOW: int := Pow2(F32_LIMIT_EXP) - Pow2(HALF_SPACING_EXP)

  lemma Pow2Of24()
    ensures Pow2(23) == 0x80_0000 && Pow2(24) == 0x100_0000
  {
    SmallPowers();
    PowerFrom(20, 10, 0x400);
    PowerFrom(23, 20, 0x10_0000);
    PowerFrom(24, 23, 0x80_0000);
  }

  lemma TopSpacing(a: nat, k: nat, q: nat)
    requires k > F32_MIN_EXP && q == Pow2(k) && 0x80_0000 * q <= a < 0x100_0000 * q
    ensures SpacingExp(a, F32_BITS, F32_MIN_EXP) == k
  {
    Pow2Of24();
    Pow2Add(23, k);
    Pow2Add(24, k);
    BitLenUnique(a, k + 24);
  }

  /** Rounding by quotient and rest. */
  lemma RoundAt(a: nat, p: nat, f: nat, q: nat, d: nat, rest: nat)
    requires q == Spacing(a, p, f) && rest < q && a == d * q + rest
    ensures Round(a, p, f) == d * q + (if 2 * rest < q || (2 * rest == q && d % 2 == 0) then 0 else q)
  {
    DivModUnique(a, q, d, rest);
  }

  /** The tie below 2^128 goes up, to the even multiple. */
  lemma AtOverflow(k: nat, q: nat, half: nat, a: nat)
    requires k > F32_MIN_EXP && q == Pow2(k) && half >= 1 && q == 2 * half
    requires a == 0x100_0000 * q - half || a == 0x100_0000 * q - half - 1
    ensures Round(a, F32_BITS, F32_MIN_EXP)
            == if a == 0x100_0000 * q - half then 0x100_0000 * q else 0xff_ffff * q
  {
    TopSpacing(a, k, q);
    RoundAt(a, F32_BITS, F32_MIN_EXP, q, 0xff_ffff, a - 0xff_ffff * q);
  }

  lemma OverflowNat(a: nat, k: nat, q: nat, half: nat, bound: nat)
    requires k > F32_MIN_EXP && q == Pow2(k) && half >= 1 && q == 2 * half && bound == 0x100_0000 * q - half
    ensures Round(a, F32_BITS, F32_MIN_EXP) >= 0x100_0000 * q <==> a >= bound
  {
    if a >= bound {
      AtOverflow(k, q, half, bound);
      RoundMonotone(bound, a, F32_BITS, F32_MIN_EXP);
    } else {
      AtOverflow(k, q, half, bound - 1);
      RoundMonotone(a, bound - 1, F32_BITS, F32_MIN_EXP);
    }
  }

  lemma OverflowNamed(a: nat, k: nat)
    requires k > F32_MIN_EXP
    ensures Round(a, F32_BITS, F32_MIN_EXP) >= Pow2(k + 24) <==> a >= Pow2(k + 24) - Pow2(k - 1)
  {
    Pow2Of24();
    Pow2Add(24, k);
    OverflowNat(a, k, Pow2(k), Pow2(k - 1), Pow2(k + 24) - Pow2(k - 1));
  }

  lemma RoundOfAbs(u: int, p: nat, f: nat)
    ensures Abs(Round(u, p, f)) == Round(Abs(u), p, f)
  {
  }

  /** Rounding reaches 2^128 exactly from the overflow bound on. */
  lemma OverflowExact(u: int)
    ensures Abs(Round(u, F32_BITS, F32_MIN_EXP)) >= Pow2(F32_LIMIT_EXP) <==> Abs(u) >= FLOAT32_OVERFLOW
  {
    OverflowNamed(Abs(u), HALF_SPACING_EXP + 1);
    RoundOfAbs(u, F32_BITS, F32_MIN_EXP);
  }

  lemma ToFloat32Exact(units: int)
    ensures ToFloat32(Fin(units))
            == if Abs(units) >= FLOAT32_OVERFLOW then Inf(units < 0) else Fin(Round(units, F32_BITS, F32_MIN_EXP))
    ensures Abs(units) < FLOAT32_OVERFLOW ==> Abs(Round(units, F32_BITS, F32_MIN_EXP)) < Pow2(F32_LIMIT_EXP)
  {
    OverflowExact(units);
  }

  /** What a number is under `float`: the nearest float32 to x, or an infinity of its
      sign exactly from the overflow bound on; NaN and the infinities stay. */
  ghost predicate IsFloat32Of(x: Float, y: Float) {
    match x
    case Fin(units) =>
      if Abs(units) >= FLOAT32_OVERFLOW then y == Inf(units < 0)
      else y.Fin? && Abs(y.units) < Pow2(F32_LIMIT_EXP) && Nearest(units, y.units, F32_BITS, F32_MIN_EXP)
    case _ => y == x
  }

  lemma ToFloat32Nearest(x: Float)
    ensures IsFloat32Of(x, ToFloat32(x))
  {
    if x.Fin? {
      ToFloat32Exact(x.units);
      RoundNearest(x.units, F32_BITS, F32_MIN_EXP);
    }
  }

  lemma FloatConversions(env: Env, v: Value)
    requires EnvOk(env) && IsNumber(v)
    ensures Normalize(env, DoubleType, v) == Float64(Number(v).value)
    ensures Normalize(env, FloatType, v) == Float32(ToFloat32(Number(v).value))
  {
  }

  /** Under `float`, a number becomes the float32 of what it is under `double`. */
  lemma FloatResult(env: Env, v: Value)
    requires EnvOk(env) && IsNumber(v)
    ensures Normalize(env, DoubleType, v).Float64? && Normalize(env, FloatType, v).Float32?
    ensures IsFloat32Of(Normalize(env, DoubleType, v).d, Normalize(env, FloatType, v).f)
  {
    FloatConversions(env, v);
    ToFloat32Nearest(Number(v).value);
  }

  lemma FirstOddFloat(k: nat, one: nat)
    requires k >= F32_MIN_EXP && one == Pow2(k)
    ensures Round(0x100_0001 * one, F32_BITS, F32_MIN_EXP) == 0x100_0000 * one
    ensures 0x100_0000 * one == Pow2(k + 24)
  {
    Pow2Of24();
    Pow2Add(24, k);
    assert Pow2(k + 25) == 2 * Pow2(k + 24) && Pow2(k + 1) == 2 * one;
    BitLenUnique(0x100_0001 * one, k + 25);
    assert SpacingExp(0x100_0001 * one, F32_BITS, F32_MIN_EXP) == k + 1;
    RoundAt(0x100_0001 * one, F32_BITS, F32_MIN_EXP, 2 * one, 0x80_0000, one);
  }

  lemma FloatOfUnits(env: Env, v: Value, units: int, r: int)
    requires EnvOk(env) && IsNumber(v) && Number(v).value == Fin(units)
    requires Round(units, F32_BITS, F32_MIN_EXP) == r && Abs(r) < Pow2(F32_LIMIT_EXP)
    ensures Normalize(env, FloatType, v) == Float32(Fin(r))
  {
  }

  lemma OddFloat(units: int, r: int)
    requires units == 0x100_0001 * ONE && r == 0x100_0000 * ONE
    ensures Round(units, F32_BITS, F32_MIN_EXP) == r && Abs(r) < Pow2(F32_LIMIT_EXP)
  {
    FirstOddFloat(UNIT_EXP, ONE);
    Pow2Monotone(UNIT_EXP + 24, F32_LIMIT_EXP);
  }

  /** 2^24 + 1 lies midway between two float32 values, and the even one is below. */
  lemma FloatIsNotExact(env: Env, v: Value, units: int, r: int)
    requires EnvOk(env) && v == Int(W64, 0x100_0001)
    requires units == 0x100_0001 * ONE && r == 0x100_0000 * ONE
    ensures Normalize(env, FloatType, v) == Float32(Fin(r))
  {
    SmallIntExact(v.n);
    OddFloat(units, r);
    FloatOfUnits(env, v, units, r);
  }
}
