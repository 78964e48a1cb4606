/** Laws of the Avro value normalizer (pkg/kafka/schema_registry.go:533-656). */
module AvroLaws {
  import opened Prelude
  import opened Rounding
  import opened AvroValues

  // ----- numbers

  /** Reads a power of two off a smaller one. */
  lemma PowerFrom(k: nat, a: nat, p: nat)
    requires a <= k && Pow2(a) == p
    ensures Pow2(k) == Pow2(k - a) * p
  {
    Pow2Add(k - a, a);
  }

  lemma SmallPowers()
    ensures Pow2(1) == 2 && Pow2(3) == 8 && Pow2(9) == 512 && Pow2(10) == 1024 && Pow2(11) == 2048
  {
    assert Pow2(1) == 2 && Pow2(2) == 4 && Pow2(3) == 8;
    PowerFrom(6, 3, 8);
    PowerFrom(9, 6, 64);
    PowerFrom(10, 9, 512);
    PowerFrom(11, 9, 512);
  }

  lemma PowersUsed()
    ensures Pow2(53) == 0x20_0000_0000_0000
    ensures Pow2(62) == 0x4000_0000_0000_0000
    ensures Pow2(63) == 0x8000_0000_0000_0000
    ensures Pow2(10) == 1024 && Pow2(11) == 2048
  {
    SmallPowers();
    PowerFrom(20, 10, 0x400);
    PowerFrom(30, 20, 0x10_0000);
    PowerFrom(40, 30, 0x4000_0000);
    PowerFrom(50, 40, 0x100_0000_0000);
    PowerFrom(53, 50, 0x4_0000_0000_0000);
    PowerFrom(62, 53, 0x20_0000_0000_0000);
    PowerFrom(63, 62, 0x4000_0000_0000_0000);
  }

  /** Integers up to 2^53 survive the trip through float64. */
  lemma SmallIntExact(n: int)
    requires Abs(n) <= 0x20_0000_0000_0000
    ensures Round(n, F64_BITS, 0) == n
  {
    PowersUsed();
    SmallFits(n, F64_BITS, 0);
    RoundFixesExactlyFits(n, F64_BITS, 0);
  }

  /** An integer that rounds to a value of at most 2^53 was not changed. */
  lemma SmallResultExact(n: int)
    requires Abs(Round(n, F64_BITS, 0)) < 0x20_0000_0000_0000
    ensures Round(n, F64_BITS, 0) == n
  {
    var bound: int := 0x20_0000_0000_0000;
    SmallIntExact(bound);
    SmallIntExact(-bound);
    if n > bound {
      RoundMonotone(bound, n, F64_BITS, 0);
    } else if n < -bound {
      RoundMonotone(n, -bound, F64_BITS, 0);
    } else {
      SmallIntExact(n);
    }
  }

  lemma WholeUnits(n: int)
    ensures (n * ONE) % ONE == 0 && (n * ONE) / ONE == n
  {
    MultipleOf(n, ONE);
  }

  /** The float64 held by v is one: its units fit in 53 bits. */
  predicate FloatOk(v: Value) {
    match v
    case Float32(f) => f.Fin? ==> Fits(f.units, F32_BITS, F32_MIN_EXP)
    case Float64(d) => d.Fin? ==> Fits(d.units, F64_BITS, 0)
    case _ => true
  }

  /** Every float inside v is one its Go type can hold. */
  predicate GoValue(v: Value) {
    && FloatOk(v)
    && (v.List? ==> forall i | 0 <= i < |v.items| :: GoValue(v.items[i]))
    && (v.Map? ==> forall k | k in v.entries :: GoValue(v.entries[k]))
  }

  lemma WholeFits(units: int, p: nat, f: nat)
    requires p <= F64_BITS && Fits(units, p, f) && units % ONE == 0
    ensures Round(units / ONE, F64_BITS, 0) == units / ONE
  {
    var n := units / ONE;
    assert units == n * ONE;
    UnscaleFits(n, UNIT_EXP, p, f);
    FitsInMore(n, p, 0, F64_BITS, 0);
    RoundFixesExactlyFits(n, F64_BITS, 0);
  }

  lemma WholeRounded(m: int)
    ensures var n := Round(m, F64_BITS, 0) * ONE / ONE;
            Round(n, F64_BITS, 0) == n
  {
    WholeUnits(Round(m, F64_BITS, 0));
    RoundIdempotent(m, F64_BITS, 0);
  }

  /** A whole float64 is an integer that survives the trip through float64. */
  lemma WholeFloatExact(v: Value)
    requires FloatOk(v) && Number(v).Some? && Number(v).value.Fin? && Number(v).value.units % ONE == 0
    ensures var n := Number(v).value.units / ONE;
            Round(n, F64_BITS, 0) == n
  {
    match v {
      case Int(_, m) => WholeRounded(m);
      case Uint(_, m) => WholeRounded(m);
      case Float32(f) => WholeFits(f.units, F32_BITS, F32_MIN_EXP);
      case Float64(d) => WholeFits(d.units, F64_BITS, 0);
    }
  }

  lemma OverflowStable(env: Env)
    requires EnvOk(env)
    ensures var r := Round(env.overflow, F64_BITS, 0);
            r == env.overflow || r == MAX_INT64 + 1
  {
    PowersUsed();
    PowerFits(63, F64_BITS, 0);
    RoundFixesExactlyFits(MIN_INT64, F64_BITS, 0);
    RoundFixesExactlyFits(MAX_INT64 + 1, F64_BITS, 0);
    if env.overflow == MAX_INT64 {
      TopRounds(MAX_INT64);
    }
  }

  /** The 512 largest int64 values round to 2^63. */
  lemma TopRounds(n: int)
    requires MAX_INT64 - 511 <= n <= MAX_INT64 + 1
    ensures Round(n, F64_BITS, 0) == MAX_INT64 + 1
  {
    PowersUsed();
    var low: int := MAX_INT64 - 511;
    BitLenUnique(low, 63);
    assert SpacingExp(low, F64_BITS, 0) == 10;
    assert Round(low, F64_BITS, 0) == MAX_INT64 + 1;
    PowerFits(63, F64_BITS, 0);
    RoundFixesExactlyFits(MAX_INT64 + 1, F64_BITS, 0);
    RoundMonotone(low, n, F64_BITS, 0);
    RoundMonotone(n, MAX_INT64 + 1, F64_BITS, 0);
  }

  /** Below them, an int64 rounds to an int64 within 512 of it. */
  lemma LongRounding(n: int)
    requires MIN_INT64 <= n < MAX_INT64 - 511
    ensures Abs(Round(n, F64_BITS, 0) - n) <= 512
    ensures MIN_INT64 <= Round(n, F64_BITS, 0) <= MAX_INT64
  {
    PowersUsed();
    PowerFits(63, F64_BITS, 0);
    RoundFixesExactlyFits(MIN_INT64, F64_BITS, 0);
    if n > MIN_INT64 {
      BitLenAtMost(Abs(n), 63);
      Pow2Monotone(SpacingExp(Abs(n), F64_BITS, 0), 10);
      RoundErrorBound(n, F64_BITS, 0);
      RoundMonotone(MIN_INT64, n, F64_BITS, 0);
    }
  }

  /** Past 2^63 the spacing is 2048, and the tie at 2^63 + 1024 goes down. */
  lemma AboveRounds(n: int)
    requires n > MAX_INT64
    ensures Round(n, F64_BITS, 0) > MAX_INT64
    ensures Round(n, F64_BITS, 0) == MAX_INT64 + 1 <==> n <= MAX_INT64 + 1025
  {
    PowersUsed();
    PowerFits(63, F64_BITS, 0);
    RoundFixesExactlyFits(MAX_INT64 + 1, F64_BITS, 0);
    var tie: int := MAX_INT64 + 1025;
    AtTie(tie);
    RoundMonotone(MAX_INT64 + 1, n, F64_BITS, 0);
    if n <= tie {
      RoundMonotone(n, tie, F64_BITS, 0);
    } else {
      RoundMonotone(tie + 1, n, F64_BITS, 0);
    }
  }

  lemma AtTie(tie: int)
    requires tie == MAX_INT64 + 1025
    ensures Round(tie, F64_BITS, 0) == MAX_INT64 + 1
    ensures Round(tie + 1, F64_BITS, 0) == MAX_INT64 + 2049
  {
    SpacingAbove(tie);
    SpacingAbove(tie + 1);
  }

  lemma SpacingAbove(n: int)
    requires MAX_INT64 < n <= MAX_INT64 + 1026
    ensures Spacing(n, F64_BITS, 0) == 2048
  {
    PowersUsed();
    Pow2Add(1, 63);
    assert Pow2(1) == 2;
    BitLenUnique(n, 64);
  }

  /** Where an integer rounds to: to 2^63 exactly from these, and into the int64
      range exactly from those. */
  lemma GuardExact(n: int)
    ensures Round(n, F64_BITS, 0) == MAX_INT64 + 1 <==> MAX_INT64 - 511 <= n <= MAX_INT64 + 1025
    ensures MIN_INT64 <= Round(n, F64_BITS, 0) <= MAX_INT64 <==> MIN_INT64 - 1024 <= n < MAX_INT64 - 511
  {
    if n > MAX_INT64 {
      AboveRounds(n);
    } else if n >= MAX_INT64 - 511 {
      TopRounds(n);
    } else if n >= MIN_INT64 {
      LongRounding(n);
    } else {
      AboveRounds(-n);
      assert Round(n, F64_BITS, 0) == -Round(-n, F64_BITS, 0);
    }
  }

  /** A record keeps its keys; a field is normalized by its own type and every
      other entry is left alone. */
  lemma RecordEntry(env: Env, s: Schema, v: Value, k: GoString)
    requires EnvOk(env) && Resolved(env, s) && s.Record? && v.Map? && k in v.entries
    ensures Normalize(env, s, v).Map? && Normalize(env, s, v).entries.Keys == v.entries.Keys
    ensures FieldType(s.fields, k).None? ==> Normalize(env, s, v).entries[k] == v.entries[k]
    ensures FieldType(s.fields, k).Some? ==>
              Resolved(env, FieldType(s.fields, k).value)
              && Normalize(env, s, v).entries[k] == Normalize(env, FieldType(s.fields, k).value, v.entries[k])
  {
    FieldTypeIn(s.fields, k);
    assert Normalize(env, s, v) == Map(NormalizeFields(env, s.fields, v));
  }

  // ----- normalizing twice is normalizing once

  lemma IntIdempotent(env: Env, v: Value)
    ensures var r := NormalizePrimitive(env, IntType, v);
            NormalizePrimitive(env, IntType, r) == r
  {
    if Number(v).Some? && WholeBetween(Number(v).value, MIN_INT32, MAX_INT32) {
      SmallIntExact(Number(v).value.units / ONE);
      WholeUnits(Number(v).value.units / ONE);
    }
  }

  lemma LongIdempotent(env: Env, v: Value)
    requires EnvOk(env) && FloatOk(v)
    ensures var r := NormalizePrimitive(env, LongType, v);
            NormalizePrimitive(env, LongType, r) == r
  {
    if Number(v).Some? && WholeBetween(Number(v).value, MIN_INT64, MAX_INT64 + 1) {
      WholeFloatExact(v);
      WholeUnits(Number(v).value.units / ONE);
      OverflowStable(env);
      WholeUnits(Round(env.overflow, F64_BITS, 0));
    }
  }

  lemma FloatIdempotent(env: Env, v: Value)
    ensures var r := NormalizePrimitive(env, FloatType, v);
            NormalizePrimitive(env, FloatType, r) == r
  {
    if Number(v).Some? && Number(v).value.Fin? {
      RoundIdempotent(Number(v).value.units, F32_BITS, F32_MIN_EXP);
    }
  }

  lemma PrimitiveIdempotent(env: Env, s: Schema, v: Value)
    requires EnvOk(env) && FloatOk(v)
    ensures var r := NormalizePrimitive(env, s, v);
            NormalizePrimitive(env, s, r) == r
  {
    if s == IntType {
      IntIdempotent(env, v);
    } else if s == LongType {
      LongIdempotent(env, v);
    } else if s == FloatType {
      FloatIdempotent(env, v);
    }
  }

  /** Normalizing is idempotent, through records, arrays, maps, unions and
      references, recursive ones included. */
  lemma {:induction false} NormalizeIdempotent(env: Env, s: Schema, v: Value)
    requires EnvOk(env) && Resolved(env, s) && GoValue(v)
    ensures var r := Normalize(env, s, v);
            Normalize(env, s, r) == r
    decreases if IsNumber(v) then 0 else 1, v, Rank(s)
  {
    var r := Normalize(env, s, v);
    match s
    case Record(_, fields) =>
      if v.Map? {
        forall k | k in v.entries && FieldType(fields, k).Some?
          ensures var t := FieldType(fields, k).value;
                  Resolved(env, t) && Normalize(env, t, r.entries[k]) == r.entries[k]
        {
          FieldTypeIn(fields, k);
          NormalizeIdempotent(env, FieldType(fields, k).value, v.entries[k]);
          RecordEntry(env, s, v, k);
        }
        forall k | k in v.entries
          ensures Normalize(env, s, r).entries[k] == r.entries[k]
        {
          RecordEntry(env, s, v, k);
          RecordEntry(env, s, r, k);
        }
        assert Normalize(env, s, r).entries == r.entries;
      }
    case Array(elem) =>
      if Elements(v).Some? {
        var xs := Elements(v).value;
        forall i | 0 <= i < |xs|
          ensures Normalize(env, elem, r.items[i]) == r.items[i]
        {
          ElementSmaller(v, i);
          NormalizeIdempotent(env, elem, xs[i]);
        }
        assert Normalize(env, s, r).items == r.items;
      }
    case MapOf(values) =>
      if v.Map? {
        forall k | k in v.entries
          ensures Normalize(env, values, r.entries[k]) == r.entries[k]
        {
          NormalizeIdempotent(env, values, v.entries[k]);
        }
        assert Normalize(env, s, r).entries == r.entries;
      }
    case Union(types) =>
      FirstNonNullIn(types);
      if !v.Nil? && FirstNonNull(types).Some? {
        NormalizeIdempotent(env, FirstNonNull(types).value, v);
      }
    case Ref(target) => NormalizeIdempotent(env, env.named[target], v);
    case _ => PrimitiveIdempotent(env, s, v);
  }

  // ----- what a value means, whatever Go type carries it

  datatype Meaning =
    | Nothing
    | Truth(b: bool)
    | Text(s: GoString)
    | Amount(x: Float)
    | Several(items: seq<Meaning>)
    | Keyed(entries: map<GoString, Meaning>)

  function AmountOf(n: int): Meaning {
    Amount(Fin(n * ONE))
  }

  function BytesMeaning(bs: Bytes): Meaning {
    Several(seq(|bs|, i requires 0 <= i < |bs| => AmountOf(bs[i])))
  }

  /** The exact content of a value: numeric type and byte container are erased. */
  function MeaningOf(v: Value): Meaning {
    match v
    case Nil => Nothing
    case Bool(b) => Truth(b)
    case Str(s) => Text(s)
    case Int(_, n) => AmountOf(n)
    case Uint(_, u) => AmountOf(u)
    case Float32(f) => Amount(f)
    case Float64(d) => Amount(d)
    case Slice(bs) => BytesMeaning(bs)
    case ByteArray(bs) => BytesMeaning(bs)
    case ArrayBuffer(bs) => BytesMeaning(bs)
    case List(items) => Several(seq(|items|, i requires 0 <= i < |items| => MeaningOf(items[i])))
    case Map(entries) => Keyed(map k | k in entries :: MeaningOf(entries[k]))
  }

  /** The exact number v holds, before any conversion. */
  function Exact(v: Value): Float
    requires IsNumber(v)
  {
    match v
    case Int(_, n) => Fin(n * ONE)
    case Uint(_, u) => Fin(u * ONE)
    case Float32(f) => f
    case Float64(d) => d
  }

  /** An integer n is kept by the trip through float64 and int64: those that round
      to 2^63 become the machine's answer, the others in range need 53 bits, and what
      is out of range is left alone. */
  predicate LongKept(env: Env, n: int) {
    if MAX_INT64 - 511 <= n <= MAX_INT64 + 1025 then n == env.overflow
    else MIN_INT64 - 1024 <= n < MAX_INT64 - 511 ==> Fits(n, F64_BITS, 0)
  }

  /** A float32 holds x exactly. */
  predicate FitsFloat32(x: Float) {
    x.Fin? ==> Fits(x.units, F32_BITS, F32_MIN_EXP) && Abs(x.units) < Pow2(F32_LIMIT_EXP)
  }

  /** The leaves a primitive schema keeps. */
  predicate PrimitiveKept(env: Env, s: Schema, v: Value) {
    match s
    case LongType =>
      (match v
       case Int(_, n) => LongKept(env, n)
       case Uint(_, u) => LongKept(env, u)
       case Float32(f) => !WholeBetween(f, MAX_INT64 + 1, MAX_INT64 + 1)
       case Float64(d) => !WholeBetween(d, MAX_INT64 + 1, MAX_INT64 + 1)
       case _ => true)
    case FloatType => IsNumber(v) ==> FitsFloat32(Exact(v))
    case DoubleType =>
      (match v
       case Int(_, n) => Fits(n, F64_BITS, 0)
       case Uint(_, u) => Fits(u, F64_BITS, 0)
       case _ => true)
    case BytesType => !v.Nil?
    case _ => true
  }

  /** No leaf of v meets a schema that cannot hold it. */
  predicate Kept(env: Env, s: Schema, v: Value)
    requires EnvOk(env) && Resolved(env, s)
    decreases if IsNumber(v) then 0 else 1, v, Rank(s)
  {
    match s
    case Record(_, fields) =>
      v.Map? ==> forall k | k in v.entries ::
        FieldTypeIn(fields, k);
        FieldType(fields, k).Some? ==> Kept(env, FieldType(fields, k).value, v.entries[k])
    case Array(elem) =>
      Elements(v).Some? ==> forall i | 0 <= i < |Elements(v).value| ::
        ElementSmaller(v, i);
        Kept(env, elem, Elements(v).value[i])
    case MapOf(values) => v.Map? ==> forall k | k in v.entries :: Kept(env, values, v.entries[k])
    case Union(types) =>
      FirstNonNullIn(types);
      !v.Nil? && FirstNonNull(types).Some? ==> Kept(env, FirstNonNull(types).value, v)
    case Ref(target) => Kept(env, env.named[target], v)
    case _ => PrimitiveKept(env, s, v)
  }

  lemma AmountInjective(n: int, m: int)
    ensures AmountOf(n) == AmountOf(m) <==> n == m
  {
    if n * ONE == m * ONE {
      MulCancel(n, m, ONE);
    }
  }

  lemma CoerceByteMeaning(v: Value)
    requires CoerceByte(v).Some?
    ensures MeaningOf(v) == AmountOf(CoerceByte(v).value)
  {
    match v
    case Float32(f) => assert f.units == (f.units / ONE) * ONE;
    case Float64(d) => assert d.units == (d.units / ONE) * ONE;
    case _ =>
  }

  lemma {:induction false} CoerceAllMeaning(items: seq<Value>)
    requires CoerceAll(items).Some?
    ensures BytesMeaning(CoerceAll(items).value) == MeaningOf(List(items))
  {
    if items != [] {
      var init, last := items[..|items| - 1], items[|items| - 1];
      CoerceAllMeaning(init);
      CoerceByteMeaning(last);
      var bs := CoerceAll(init).value;
      var out := CoerceAll(items).value;
      var want := MeaningOf(List(items)).items;
      forall i | 0 <= i < |out|
        ensures AmountOf(out[i]) == want[i]
      {
        if i < |init| {
          assert out[i] == bs[i] && items[i] == init[i];
          assert BytesMeaning(bs).items[i] == MeaningOf(List(init)).items[i];
        }
      }
      assert BytesMeaning(out).items == want;
    }
  }

  /** A number that means a byte, whatever Go type carries it. */
  ghost predicate ByteSized(v: Value) {
    IsNumber(v) && exists b: byte :: MeaningOf(v) == AmountOf(b)
  }

  /** Bytes in some container, or nothing. */
  ghost predicate ByteLike(v: Value) {
    v.Nil? || v.Slice? || v.ByteArray? || v.ArrayBuffer?
    || (v.List? && forall i | 0 <= i < |v.items| :: ByteSized(v.items[i]))
  }

  lemma WholeIsUnits(x: Float, b: byte)
    requires Amount(x) == AmountOf(b)
    ensures WholeBetween(x, 0, 255)
  {
    WholeUnits(b);
  }

  lemma CoerceByteExact(v: Value)
    ensures CoerceByte(v).Some? <==> ByteSized(v)
  {
    if CoerceByte(v).Some? {
      CoerceByteMeaning(v);
      assert MeaningOf(v) == AmountOf(CoerceByte(v).value);
    }
    if ByteSized(v) {
      var b: byte :| MeaningOf(v) == AmountOf(b);
      if v.Int? || v.Uint? {
        AmountInjective(Whole(v), b);
      } else {
        WholeIsUnits(Exact(v), b);
      }
    }
  }

  lemma {:induction false} CoerceAllExact(items: seq<Value>)
    ensures CoerceAll(items).Some? <==> forall i | 0 <= i < |items| :: ByteSized(items[i])
  {
    if items != [] {
      var init := items[..|items| - 1];
      CoerceAllExact(init);
      CoerceByteExact(items[|items| - 1]);
      assert forall i | 0 <= i < |init| :: init[i] == items[i];
      assert items == init + [items[|items| - 1]];
    }
  }

  /** Coercing to bytes succeeds exactly on byte-like values; nil gives none, and any
      other gives the bytes it means. */
  lemma CoerceBytesExact(v: Value)
    ensures CoerceBytes(v).Some? <==> ByteLike(v)
    ensures v.Nil? ==> CoerceBytes(v) == Some([])
    ensures ByteLike(v) && !v.Nil? ==> BytesMeaning(CoerceBytes(v).value) == MeaningOf(v)
  {
    if v.List? {
      CoerceAllExact(v.items);
      if CoerceAll(v.items).Some? {
        CoerceAllMeaning(v.items);
      }
    }
  }

  /** The meaning determines the bytes. */
  lemma BytesByMeaning(a: Bytes, b: Bytes)
    requires BytesMeaning(a) == BytesMeaning(b)
    ensures a == b
  {
    forall i | 0 <= i < |a|
      ensures |a| == |b| && a[i] == b[i]
    {
      assert |BytesMeaning(a).items| == |a| && |BytesMeaning(b).items| == |b|;
      assert BytesMeaning(a).items[i] == AmountOf(a[i]) && BytesMeaning(b).items[i] == AmountOf(b[i]);
      AmountInjective(a[i], b[i]);
    }
    assert |BytesMeaning(a).items| == |a| && |BytesMeaning(b).items| == |b|;
  }

  /** A map schema keeps the keys and normalizes every value by its own. */
  lemma MapResult(env: Env, values: Schema, v: Value)
    requires EnvOk(env) && Resolved(env, values) && v.Map?
    ensures var r := Normalize(env, MapOf(values), v);
            r.Map? && r.entries.Keys == v.entries.Keys
            && forall k | k in v.entries :: r.entries[k] == Normalize(env, values, v.entries[k])
  {
  }

  /** An array schema makes a list of whatever reflection sees as one, element by
      element, and leaves anything else alone. */
  lemma ArrayResult(env: Env, elem: Schema, v: Value)
    requires EnvOk(env) && Resolved(env, elem)
    ensures var r := Normalize(env, Array(elem), v);
            match v
            case List(items) =>
              r.List? && |r.items| == |items|
              && forall i | 0 <= i < |items| :: r.items[i] == Normalize(env, elem, items[i])
            case Slice(bs) =>
              r.List? && |r.items| == |bs|
              && forall i | 0 <= i < |bs| :: r.items[i] == Normalize(env, elem, Uint(W8, bs[i]))
            case ByteArray(bs) =>
              r.List? && |r.items| == |bs|
              && forall i | 0 <= i < |bs| :: r.items[i] == Normalize(env, elem, Uint(W8, bs[i]))
            case _ => r == v
  {
  }

  lemma ElementsMeaning(v: Value)
    requires Elements(v).Some?
    ensures MeaningOf(v) == MeaningOf(List(Elements(v).value))
  {
    var xs := Elements(v).value;
    if !v.List? {
      assert MeaningOf(v).items == MeaningOf(List(xs)).items;
    }
  }

  /** The integer a leaf holds. */
  function Whole(v: Value): int
    requires v.Int? || v.Uint?
  {
    if v.Int? then v.n else v.u
  }

  lemma IntLeaf(env: Env, v: Value)
    requires v.Int? || v.Uint?
    ensures MeaningOf(NormalizePrimitive(env, IntType, v)) == MeaningOf(v)
  {
    var r := Round(Whole(v), F64_BITS, 0);
    WholeUnits(r);
    if MIN_INT32 <= r <= MAX_INT32 {
      SmallResultExact(Whole(v));
    }
  }

  lemma LongLeaf(env: Env, v: Value)
    requires EnvOk(env) && (v.Int? || v.Uint?)
    ensures MeaningOf(NormalizePrimitive(env, LongType, v)) == MeaningOf(v) <==> LongKept(env, Whole(v))
  {
    var n := Whole(v);
    var r := Round(n, F64_BITS, 0);
    GuardExact(n);
    WholeUnits(r);
    RoundFixesExactlyFits(n, F64_BITS, 0);
    AmountInjective(r, n);
    AmountInjective(env.overflow, n);
  }

  lemma WholeUnitsBack(x: Float, lo: int, hi: int)
    requires WholeBetween(x, lo, hi)
    ensures AmountOf(x.units / ONE) == Amount(x)
  {
    assert x.units == (x.units / ONE) * ONE;
  }

  lemma FloatUnderLong(env: Env, v: Value)
    requires EnvOk(env) && (v.Float32? || v.Float64?)
    ensures MeaningOf(NormalizePrimitive(env, LongType, v)) == MeaningOf(v) <==> PrimitiveKept(env, LongType, v)
  {
    var x := Number(v).value;
    if WholeBetween(x, MIN_INT64, MAX_INT64 + 1) {
      WholeUnitsBack(x, MIN_INT64, MAX_INT64 + 1);
      AmountInjective(env.overflow, x.units / ONE);
    }
  }

  lemma FloatUnderInt(env: Env, v: Value)
    requires v.Float32? || v.Float64?
    ensures MeaningOf(NormalizePrimitive(env, IntType, v)) == MeaningOf(v)
  {
    var x := Number(v).value;
    if WholeBetween(x, MIN_INT32, MAX_INT32) {
      WholeUnitsBack(x, MIN_INT32, MAX_INT32);
    }
  }

  lemma DoubleLeaf(env: Env, v: Value)
    ensures MeaningOf(NormalizePrimitive(env, DoubleType, v)) == MeaningOf(v) <==> PrimitiveKept(env, DoubleType, v)
  {
    if v.Int? || v.Uint? {
      AmountInjective(Round(Whole(v), F64_BITS, 0), Whole(v));
      RoundFixesExactlyFits(Whole(v), F64_BITS, 0);
    }
  }

  lemma BytesLeaf(env: Env, v: Value)
    ensures MeaningOf(NormalizePrimitive(env, BytesType, v)) == MeaningOf(v) <==> PrimitiveKept(env, BytesType, v)
  {
    if v.List? && CoerceAll(v.items).Some? {
      CoerceAllMeaning(v.items);
    }
  }

  lemma FloatLeaf(v: Value)
    requires IsNumber(v)
    ensures ToFloat32(Number(v).value) == Exact(v) <==> FitsFloat32(Exact(v))
  {
    if Exact(v).Fin? {
      var units, x := Exact(v).units, Number(v).value.units;
      RoundFits(x, F32_BITS, F32_MIN_EXP);
      RoundFixesExactlyFits(units, F32_BITS, F32_MIN_EXP);
      if Fits(units, F32_BITS, F32_MIN_EXP) && (v.Int? || v.Uint?) {
        var n := Whole(v);
        UnscaleFits(n, UNIT_EXP, F32_BITS, F32_MIN_EXP);
        FitsInMore(n, F32_BITS, 0, F64_BITS, 0);
        RoundFixesExactlyFits(n, F64_BITS, 0);
      }
    }
  }

  lemma IntegerTypeMeaning(env: Env, s: Schema, v: Value)
    requires EnvOk(env) && (s == IntType || s == LongType)
    ensures MeaningOf(NormalizePrimitive(env, s, v)) == MeaningOf(v) <==> PrimitiveKept(env, s, v)
  {
    if s == IntType {
      if v.Int? || v.Uint? { IntLeaf(env, v); }
      else if IsNumber(v) { FloatUnderInt(env, v); }
    } else {
      if v.Int? || v.Uint? { LongLeaf(env, v); }
      else if IsNumber(v) { FloatUnderLong(env, v); }
    }
  }

  lemma FloatTypeMeaning(env: Env, v: Value)
    ensures MeaningOf(NormalizePrimitive(env, FloatType, v)) == MeaningOf(v) <==> PrimitiveKept(env, FloatType, v)
  {
    if IsNumber(v) { FloatLeaf(v); }
  }

  lemma PrimitiveMeaning(env: Env, s: Schema, v: Value)
    requires EnvOk(env)
    ensures MeaningOf(NormalizePrimitive(env, s, v)) == MeaningOf(v) <==> PrimitiveKept(env, s, v)
  {
    if s == IntType || s == LongType { IntegerTypeMeaning(env, s, v); }
    else if s == FloatType { FloatTypeMeaning(env, v); }
    else if s == DoubleType { DoubleLeaf(env, v); }
    else if s == BytesType { BytesLeaf(env, v); }
  }

  /** Normalizing preserves the meaning of a value exactly when no leaf of it is
      too wide for its schema. */
  lemma {:induction false} NormalizeKeepsMeaning(env: Env, s: Schema, v: Value)
    requires EnvOk(env) && Resolved(env, s)
    ensures MeaningOf(Normalize(env, s, v)) == MeaningOf(v) <==> Kept(env, s, v)
    decreases if IsNumber(v) then 0 else 1, v, Rank(s)
  {
    match s
    case Record(_, fields) => if v.Map? { RecordKeepsMeaning(env, s, v); }
    case Array(elem) => if Elements(v).Some? { ArrayKeepsMeaning(env, s, v); }
    case MapOf(values) => if v.Map? { MapKeepsMeaning(env, s, v); }
    case Union(types) =>
      FirstNonNullIn(types);
      if !v.Nil? && FirstNonNull(types).Some? {
        NormalizeKeepsMeaning(env, FirstNonNull(types).value, v);
      }
    case Ref(target) => NormalizeKeepsMeaning(env, env.named[target], v);
    case _ => PrimitiveMeaning(env, s, v);
  }

  lemma {:induction false} RecordKeepsMeaning(env: Env, s: Schema, v: Value)
    requires EnvOk(env) && Resolved(env, s) && s.Record? && v.Map?
    ensures MeaningOf(Normalize(env, s, v)) == MeaningOf(v) <==> Kept(env, s, v)
    decreases 1, v, 0, 0
  {
    var before, after := MeaningOf(v).entries, MeaningOf(Normalize(env, s, v)).entries;
    assert before.Keys == after.Keys == v.entries.Keys;
    forall k | k in v.entries
      ensures FieldType(s.fields, k).Some? ==> Resolved(env, FieldType(s.fields, k).value)
      ensures before[k] == after[k] <==>
        (FieldType(s.fields, k).Some? ==> Kept(env, FieldType(s.fields, k).value, v.entries[k]))
    {
      RecordEntry(env, s, v, k);
      assert before[k] == MeaningOf(v.entries[k]) && after[k] == MeaningOf(Normalize(env, s, v).entries[k]);
      if FieldType(s.fields, k).Some? {
        NormalizeKeepsMeaning(env, FieldType(s.fields, k).value, v.entries[k]);
      }
    }
    assert before == after <==> forall k | k in v.entries :: before[k] == after[k];
  }

  lemma {:induction false} ArrayKeepsMeaning(env: Env, s: Schema, v: Value)
    requires EnvOk(env) && Resolved(env, s) && s.Array? && Elements(v).Some?
    ensures MeaningOf(Normalize(env, s, v)) == MeaningOf(v) <==> Kept(env, s, v)
    decreases 1, v, 0, 0
  {
    var xs := Elements(v).value;
    ElementsMeaning(v);
    var before, after := MeaningOf(List(xs)).items, MeaningOf(Normalize(env, s, v)).items;
    assert |before| == |after| == |xs|;
    forall i | 0 <= i < |xs|
      ensures before[i] == after[i] <==> Kept(env, s.elem, xs[i])
    {
      ElementSmaller(v, i);
      NormalizeKeepsMeaning(env, s.elem, xs[i]);
    }
    assert before == after <==> forall i | 0 <= i < |xs| :: before[i] == after[i];
  }

  lemma {:induction false} MapKeepsMeaning(env: Env, s: Schema, v: Value)
    requires EnvOk(env) && Resolved(env, s) && s.MapOf? && v.Map?
    ensures MeaningOf(Normalize(env, s, v)) == MeaningOf(v) <==> Kept(env, s, v)
    decreases 1, v, 0, 0
  {
    var before, after := MeaningOf(v).entries, MeaningOf(Normalize(env, s, v)).entries;
    assert before.Keys == after.Keys == v.entries.Keys;
    forall k | k in v.entries
      ensures before[k] == after[k] <==> Kept(env, s.values, v.entries[k])
    {
      NormalizeKeepsMeaning(env, s.values, v.entries[k]);
    }
    assert before == after <==> forall k | k in v.entries :: before[k] == after[k];
  }
}
