/** What the normalizer establishes (pkg/kafka/schema_registry.go:533-656). */
module AvroTyping {
  import opened Prelude
  import opened Rounding
  import opened AvroValues
  import opened AvroLaws

  /** The Go type the Avro encoder wants for a primitive schema. */
  predicate PrimitiveConforms(s: Schema, v: Value) {
    match s
    case NullType => v.Nil?
    case BooleanType => v.Bool?
    case IntType => v.Int? && v.width == W32 && MIN_INT32 <= v.n <= MAX_INT32
    case LongType => v.Int? && v.width == W64 && MIN_INT64 <= v.n <= MAX_INT64
    case FloatType => v.Float32?
    case DoubleType => v.Float64?
    case BytesType => v.Slice?
    case StringType => v.Str?
    case Enum(_) => v.Str?
    case Fixed(_, size) => v.ByteArray? && |v.bytes| == size
    case _ => false
  }

  /** v has exactly the types the encoder wants, at every position the schema
      reaches; a union takes nil, if it has null, or its first other branch. */
  predicate Conforms(env: Env, s: Schema, v: Value)
    requires EnvOk(env) && Resolved(env, s)
    decreases if IsNumber(v) then 0 else 1, v, Rank(s)
  {
    match s
    case Record(_, fields) =>
      v.Map? && forall k | k in v.entries ::
        FieldTypeIn(fields, k);
        FieldType(fields, k).Some? ==> Conforms(env, FieldType(fields, k).value, v.entries[k])
    case Array(elem) => v.List? && forall i | 0 <= i < |v.items| :: Conforms(env, elem, v.items[i])
    case MapOf(values) => v.Map? && forall k | k in v.entries :: Conforms(env, values, v.entries[k])
    case Union(types) =>
      FirstNonNullIn(types);
      if v.Nil? then NullType in types
      else FirstNonNull(types).Some? && Conforms(env, FirstNonNull(types).value, v)
    case Ref(target) => Conforms(env, env.named[target], v)
    case _ => PrimitiveConforms(s, v)
  }

  /** Numbers of any Go type in range, and anything byte-like. The range of `long`
      is the guard's, whose upper end is 2^63. */
  predicate PrimitiveAcceptable(s: Schema, v: Value) {
    match s
    case IntType => IsNumber(v) && WholeBetween(Number(v).value, MIN_INT32, MAX_INT32)
    case LongType => IsNumber(v) && WholeBetween(Number(v).value, MIN_INT64, MAX_INT64 + 1)
    case FloatType => IsNumber(v)
    case DoubleType => IsNumber(v)
    case BytesType => CoerceBytes(v).Some?
    case _ => PrimitiveConforms(s, v)
  }

  /** v fits the schema up to the numeric types and byte containers it uses. */
  predicate Acceptable(env: Env, s: Schema, v: Value)
    requires EnvOk(env) && Resolved(env, s)
    decreases if IsNumber(v) then 0 else 1, v, Rank(s)
  {
    match s
    case Record(_, fields) =>
      v.Map? && forall k | k in v.entries ::
        FieldTypeIn(fields, k);
        FieldType(fields, k).Some? ==> Acceptable(env, FieldType(fields, k).value, v.entries[k])
    case Array(elem) =>
      Elements(v).Some? && forall i | 0 <= i < |Elements(v).value| ::
        ElementSmaller(v, i);
        Acceptable(env, elem, Elements(v).value[i])
    case MapOf(values) => v.Map? && forall k | k in v.entries :: Acceptable(env, values, v.entries[k])
    case Union(types) =>
      FirstNonNullIn(types);
      if v.Nil? then NullType in types
      else FirstNonNull(types).Some? && Acceptable(env, FirstNonNull(types).value, v)
    case Ref(target) => Acceptable(env, env.named[target], v)
    case _ => PrimitiveAcceptable(s, v)
  }

  lemma PrimitiveEstablishes(env: Env, s: Schema, v: Value)
    requires EnvOk(env)
    requires !s.Record? && !s.Array? && !s.MapOf? && !s.Union? && !s.Ref?
    ensures PrimitiveConforms(s, NormalizePrimitive(env, s, v)) <==> PrimitiveAcceptable(s, v)
  {
    if s == LongType && v.Int? {
      LongGuardExact(v.n);
    } else if s == IntType && v.Int? {
      IntGuardExact(v.n);
    }
  }

  /** A leaf the guard refuses is left as it is, Go type included. */
  lemma RefusedLeaf(env: Env, s: Schema, v: Value)
    requires !PrimitiveAcceptable(s, v)
    ensures NormalizePrimitive(env, s, v) == v
  {
  }

  /** So is a value that is no map under a record or a map, and a text, truth value, nil
      or fixed value under its own type. */
  lemma LeftAlone(env: Env, s: Schema, v: Value)
    requires EnvOk(env) && Resolved(env, s)
    ensures (s.Record? || s.MapOf?) && !v.Map? ==> Normalize(env, s, v) == v
    ensures s.NullType? || s.BooleanType? || s.StringType? || s.Enum? || s.Fixed? ==> Normalize(env, s, v) == v
    ensures s.Union? && (v.Nil? || forall i | 0 <= i < |s.types| :: s.types[i].NullType?) ==> Normalize(env, s, v) == v
  {
    if s.Union? {
      FirstNonNullIn(s.types);
    }
  }

  lemma IntGuardExact(n: int)
    ensures WholeBetween(Fin(Round(n, F64_BITS, 0) * ONE), MIN_INT32, MAX_INT32) <==> MIN_INT32 <= n <= MAX_INT32
  {
    WholeUnits(Round(n, F64_BITS, 0));
    if MIN_INT32 <= n <= MAX_INT32 {
      SmallIntExact(n);
    } else if MIN_INT32 <= Round(n, F64_BITS, 0) <= MAX_INT32 {
      SmallResultExact(n);
    }
  }

  /** Every int64 passes the guard for `long`. */
  lemma LongGuardExact(n: int)
    ensures MIN_INT64 <= n <= MAX_INT64 ==>
              WholeBetween(Fin(Round(n, F64_BITS, 0) * ONE), MIN_INT64, MAX_INT64 + 1)
  {
    WholeUnits(Round(n, F64_BITS, 0));
    if MIN_INT64 <= n < MAX_INT64 - 511 {
      LongRounding(n);
    } else if MIN_INT64 <= n <= MAX_INT64 {
      TopRounds(n);
    }
  }

  lemma {:induction false} NormalizeNil(env: Env, s: Schema, v: Value)
    requires EnvOk(env) && Resolved(env, s)
    ensures Normalize(env, s, v).Nil? ==> v.Nil?
    decreases Rank(s)
  {
    match s
    case Union(types) =>
      FirstNonNullIn(types);
      if FirstNonNull(types).Some? {
        NormalizeNil(env, FirstNonNull(types).value, v);
      }
    case Ref(target) => NormalizeNil(env, env.named[target], v);
    case _ =>
  }

  /** Normalizing yields exactly the encoder's types if and only if the value was
      acceptable, through records, arrays, maps, unions and references. */
  lemma {:induction false} NormalizeEstablishesTypes(env: Env, s: Schema, v: Value)
    requires EnvOk(env) && Resolved(env, s)
    ensures Conforms(env, s, Normalize(env, s, v)) <==> Acceptable(env, s, v)
    decreases if IsNumber(v) then 0 else 1, v, Rank(s)
  {
    match s
    case Record(_, fields) => if v.Map? { RecordEstablishes(env, s, v); }
    case Array(elem) =>
      if Elements(v).Some? {
        forall i | 0 <= i < |Elements(v).value|
          ensures Conforms(env, elem, Normalize(env, s, v).items[i]) <==> Acceptable(env, elem, Elements(v).value[i])
        {
          ElementSmaller(v, i);
          NormalizeEstablishesTypes(env, elem, Elements(v).value[i]);
        }
      }
    case MapOf(values) =>
      if v.Map? {
        forall k | k in v.entries
          ensures Conforms(env, values, Normalize(env, s, v).entries[k]) <==> Acceptable(env, values, v.entries[k])
        {
          NormalizeEstablishesTypes(env, values, v.entries[k]);
        }
      }
    case Union(types) =>
      FirstNonNullIn(types);
      if !v.Nil? && FirstNonNull(types).Some? {
        NormalizeEstablishesTypes(env, FirstNonNull(types).value, v);
        NormalizeNil(env, FirstNonNull(types).value, v);
      }
    case Ref(target) => NormalizeEstablishesTypes(env, env.named[target], v);
    case _ => PrimitiveEstablishes(env, s, v);
  }

  lemma {:induction false} RecordEstablishes(env: Env, s: Schema, v: Value)
    requires EnvOk(env) && Resolved(env, s) && s.Record? && v.Map?
    ensures Conforms(env, s, Normalize(env, s, v)) <==> Acceptable(env, s, v)
    decreases 1, v, 0, 0
  {
    var r := Normalize(env, s, v);
    forall k | k in v.entries
      ensures r.Map? && r.entries.Keys == v.entries.Keys
      ensures FieldType(s.fields, k).Some? ==> Resolved(env, FieldType(s.fields, k).value)
      ensures FieldType(s.fields, k).Some? ==>
        (Conforms(env, FieldType(s.fields, k).value, r.entries[k])
         <==> Acceptable(env, FieldType(s.fields, k).value, v.entries[k]))
    {
      RecordEntry(env, s, v, k);
      if FieldType(s.fields, k).Some? {
        NormalizeEstablishesTypes(env, FieldType(s.fields, k).value, v.entries[k]);
      }
    }
    assert r.Map? && r.entries.Keys == v.entries.Keys;
  }

  // ----- int64 under `long`

  /** An int64 under `long` comes out as the nearest 53-bit integer, within 512 of
      it and unchanged up to 2^53; the 512 largest come out as whatever the
      machine yields for 2^63. */
  lemma LongResult(env: Env, w: Width, n: int)
    requires EnvOk(env) && MIN_INT64 <= n <= MAX_INT64
    ensures n < MAX_INT64 - 511 ==>
              Normalize(env, LongType, Int(w, n)) == Int(W64, Round(n, F64_BITS, 0))
              && Abs(Round(n, F64_BITS, 0) - n) <= 512
    ensures Abs(n) <= 0x20_0000_0000_0000 ==> Normalize(env, LongType, Int(w, n)) == Int(W64, n)
    ensures n >= MAX_INT64 - 511 ==> Normalize(env, LongType, Int(w, n)) == Int(W64, env.overflow)
  {
    WholeUnits(Round(n, F64_BITS, 0));
    if n < MAX_INT64 - 511 {
      LongRounding(n);
    } else {
      TopRounds(n);
    }
    if Abs(n) <= 0x20_0000_0000_0000 {
      SmallIntExact(n);
    }
  }

  /** Order is kept below the 512 largest values. */
  lemma LongMonotone(env: Env, w: Width, n: int, m: int)
    requires EnvOk(env) && MIN_INT64 <= n <= m < MAX_INT64 - 511
    ensures Normalize(env, LongType, Int(w, n)).Int? && Normalize(env, LongType, Int(w, m)).Int?
    ensures Normalize(env, LongType, Int(w, n)).n <= Normalize(env, LongType, Int(w, m)).n
  {
    LongResult(env, w, n);
    LongResult(env, w, m);
    RoundMonotone(n, m, F64_BITS, 0);
  }

  /** 2^53 + 1 lies midway between two float64 values, and the even one is below. */
  lemma FirstOddRounds()
    ensures Round(0x20_0000_0000_0001, F64_BITS, 0) == 0x20_0000_0000_0000
  {
    var n: nat := 0x20_0000_0000_0001;
    PowersUsed();
    Pow2Add(1, 53);
    assert Pow2(1) == 2;
    BitLenUnique(n, 54);
    assert Spacing(n, F64_BITS, 0) == 2;
  }

  /** The documented equivalence of an encoded and decoded value fails here: the
      first odd integer past 2^53 is changed, and where the machine yields the
      least int64 for 2^63 the largest int64 becomes the least. */
  lemma LongIsNotExact(env: Env)
    requires EnvOk(env)
    ensures Normalize(env, LongType, Int(W64, 0x20_0000_0000_0001)) == Int(W64, 0x20_0000_0000_0000)
    ensures env.overflow == MIN_INT64 ==> Normalize(env, LongType, Int(W64, MAX_INT64)) == Int(W64, MIN_INT64)
  {
    LongResult(env, W64, 0x20_0000_0000_0001);
    LongResult(env, W64, MAX_INT64);
    FirstOddRounds();
  }
}
