/**
 Values crossing the JavaScript bridge, Avro schemas, and the conversions the
 normalizer applies to one value (pkg/kafka/schema_registry.go).
 */
module AvroValues {
  import opened Prelude
  import opened Rounding

  /** A finite float64 is a whole number of units of 2^-1074, the least subnormal. */
  const UNIT_EXP: nat := 1074

  /** The number 1, in units. */
  const ONE: nat := Pow2(UNIT_EXP)

  const MIN_INT32: int := -0x8000_0000
  const MAX_INT32: int := 0x7fff_ffff
  const MIN_INT64: int := -0x8000_0000_0000_0000
  const MAX_INT64: int := 0x7fff_ffff_ffff_ffff

  /** float64 and float32 keep 53 and 24 significant bits; the least float32 is
      2^-149 and the least magnitude that no longer fits a float32 is 2^128. */
  const F64_BITS: nat := 53
  const F32_BITS: nat := 24
  const F32_MIN_EXP: nat := 925
  const F32_LIMIT_EXP: nat := 1202

  /** A float value; the two zeros are one value here. */
  datatype Float = NaN | Inf(negative: bool) | Fin(units: int)

  datatype Width = Word | W8 | W16 | W32 | W64

  /** A finite Go value as the bridge exports it. */
  datatype Value =
    | Nil
    | Bool(b: bool)
    | Str(s: GoString)
    | Int(width: Width, n: int)
    | Uint(uwidth: Width, u: nat)
    | Float32(f: Float)
    | Float64(d: Float)
    | Slice(bs: Bytes)        // []byte
    | ByteArray(bytes: Bytes) // [N]byte
    | ArrayBuffer(buf: Bytes)
    | List(items: seq<Value>)
    | Map(entries: map<GoString, Value>)

  /** A record field; fallback is its default, as the encoder writes it. */
  datatype Field = Field(name: GoString, typ: Schema, fallback: Option<Value>)

  datatype Schema =
    | NullType | BooleanType | IntType | LongType | FloatType | DoubleType | BytesType | StringType
    | Enum(name: GoString)
    | Fixed(name: GoString, size: nat)
    | Record(name: GoString, fields: seq<Field>)
    | Array(elem: Schema)
    | MapOf(values: Schema)
    | Union(types: seq<Schema>)
    | Ref(target: GoString)

  /** The named types a reference can point to, and the int64 this machine yields
      for a float64 outside the int64 range (which Go leaves to the implementation). */
  datatype Env = Env(named: map<GoString, Schema>, overflow: int)

  predicate Named(s: Schema) {
    s.Record? || s.Enum? || s.Fixed?
  }

  /** Every reference in s has a target, and no union directly holds a union. */
  predicate Resolved(env: Env, s: Schema)
    decreases s
  {
    match s
    case Record(_, fields) => forall i | 0 <= i < |fields| :: Resolved(env, fields[i].typ)
    case Array(elem) => Resolved(env, elem)
    case MapOf(values) => Resolved(env, values)
    case Union(types) => forall i | 0 <= i < |types| :: !types[i].Union? && Resolved(env, types[i])
    case Ref(target) => target in env.named
    case _ => true
  }

  predicate EnvOk(env: Env) {
    && (forall n | n in env.named :: Named(env.named[n]) && Resolved(env, env.named[n]))
    && (env.overflow == MIN_INT64 || env.overflow == MAX_INT64)
  }

  /** The type of field k; a later field of the same name wins. */
  function FieldType(fields: seq<Field>, k: GoString): Option<Schema> {
    if fields == [] then None
    else if fields[|fields| - 1].name == k then Some(fields[|fields| - 1].typ)
    else FieldType(fields[..|fields| - 1], k)
  }

  /** The first branch of a union that is not null. */
  function FirstNonNull(types: seq<Schema>): Option<Schema> {
    if types == [] then None
    else if types[0].NullType? then FirstNonNull(types[1..])
    else Some(types[0])
  }

  predicate IsNumber(v: Value) {
    v.Int? || v.Uint? || v.Float32? || v.Float64?
  }

  /** coerceNumber: a number as a float64. */
  function Number(v: Value): Option<Float> {
    match v
    case Int(_, n) => Some(Fin(Round(n, F64_BITS, 0) * ONE))
    case Uint(_, u) => Some(Fin(Round(u, F64_BITS, 0) * ONE))
    case Float32(f) => Some(f)
    case Float64(d) => Some(d)
    case _ => None
  }

  /** The conversion float32(x). */
  function ToFloat32(x: Float): Float {
    match x
    case Fin(units) =>
      var r := Round(units, F32_BITS, F32_MIN_EXP);
      if Abs(r) >= Pow2(F32_LIMIT_EXP) then Inf(units < 0) else Fin(r)
    case _ => x
  }

  /** x is a whole number between lo and hi. */
  predicate WholeBetween(x: Float, lo: int, hi: int) {
    x.Fin? && x.units % ONE == 0 && lo <= x.units / ONE <= hi
  }

  /** The conversion int64(x) of a whole float64. */
  function ToInt64(env: Env, x: Float): int
    requires x.Fin?
  {
    var n := x.units / ONE;
    if MIN_INT64 <= n <= MAX_INT64 then n else env.overflow
  }

  /** coerceByte. */
  function CoerceByte(v: Value): Option<byte> {
    match v
    case Uint(_, u) => if u > 255 then None else Some(u)
    case Int(_, n) => if n < 0 || n > 255 then None else Some(n)
    case Float32(f) => if WholeBetween(f, 0, 255) then Some(f.units / ONE) else None
    case Float64(d) => if WholeBetween(d, 0, 255) then Some(d.units / ONE) else None
    case _ => None
  }

  function CoerceAll(items: seq<Value>): (r: Option<Bytes>)
    ensures r.Some? ==> |r.value| == |items|
  {
    if items == [] then Some([])
    else
      var init, last := CoerceAll(items[..|items| - 1]), CoerceByte(items[|items| - 1]);
      if init.None? || last.None? then None else Some(init.value + [last.value])
  }

  /** coerceBytes; nil coerces to no bytes. */
  function CoerceBytes(v: Value): Option<Bytes> {
    match v
    case Nil => Some([])
    case Slice(bs) => Some(bs)
    case ByteArray(bs) => Some(bs)
    case ArrayBuffer(bs) => Some(bs)
    case List(items) => CoerceAll(items)
    case _ => None
  }

  /** The elements reflection sees in a slice or array. */
  function Elements(v: Value): Option<seq<Value>> {
    match v
    case List(items) => Some(items)
    case Slice(bs) => Some(ByteValues(bs))
    case ByteArray(bs) => Some(ByteValues(bs))
    case _ => None
  }

  function ByteValues(bs: Bytes): seq<Value> {
    seq(|bs|, i requires 0 <= i < |bs| => Uint(W8, bs[i]))
  }

  /** normalizeAvroPrimitive. The guard constant for the largest int64 is a float64
      there, and rounds to 2^63. */
  function NormalizePrimitive(env: Env, s: Schema, v: Value): Value {
    var x := Number(v);
    match s
    case IntType =>
      if x.Some? && WholeBetween(x.value, MIN_INT32, MAX_INT32) then Int(W32, x.value.units / ONE) else v
    case LongType =>
      if x.Some? && WholeBetween(x.value, MIN_INT64, MAX_INT64 + 1) then Int(W64, ToInt64(env, x.value)) else v
    case FloatType => if x.Some? then Float32(ToFloat32(x.value)) else v
    case DoubleType => if x.Some? then Float64(x.value) else v
    case BytesType => var b := CoerceBytes(v); if b.Some? then Slice(b.value) else v
    case _ => v
  }

  function Rank(s: Schema): nat {
    if s.Union? then 2 else if s.Ref? then 1 else 0
  }

  /** normalizeAvroValue, as a function of schema and value. */
  function Normalize(env: Env, s: Schema, v: Value): Value
    requires EnvOk(env) && Resolved(env, s)
    decreases if IsNumber(v) then 0 else 1, v, Rank(s)
  {
    match s
    case Record(_, fields) =>
      if v.Map? then Map(NormalizeFields(env, fields, v)) else v
    case Array(elem) =>
      var xs := Elements(v);
      if xs.Some? then List(seq(|xs.value|, i requires 0 <= i < |xs.value| =>
        ElementSmaller(v, i);
        Normalize(env, elem, xs.value[i])))
      else v
    case MapOf(values) =>
      if v.Map? then Map(map k | k in v.entries :: Normalize(env, values, v.entries[k])) else v
    case Union(types) =>
      if v.Nil? then v
      else
        FirstNonNullIn(types);
        var branch := FirstNonNull(types);
        if branch.Some? then Normalize(env, branch.value, v) else v
    case Ref(target) => Normalize(env, env.named[target], v)
    case _ => NormalizePrimitive(env, s, v)
  }

  function NormalizeFields(env: Env, fields: seq<Field>, v: Value): (r: map<GoString, Value>)
    requires EnvOk(env) && (forall i | 0 <= i < |fields| :: Resolved(env, fields[i].typ))
    requires v.Map?
    ensures r.Keys == v.entries.Keys
    decreases 1, v, 0, 0
  {
    map k | k in v.entries ::
      FieldTypeIn(fields, k);
      if FieldType(fields, k).Some?
      then Normalize(env, FieldType(fields, k).value, v.entries[k])
      else v.entries[k]
  }

  lemma ElementSmaller(v: Value, i: nat)
    requires Elements(v).Some? && i < |Elements(v).value|
    ensures IsNumber(Elements(v).value[i]) || Elements(v).value[i] < v
    ensures !IsNumber(v)
  {
  }

  /** It is a branch, is not null, and comes after null branches only. */
  lemma FirstNonNullIn(types: seq<Schema>)
    ensures FirstNonNull(types).None? ==> forall i | 0 <= i < |types| :: types[i].NullType?
    ensures FirstNonNull(types).Some? ==>
              FirstNonNull(types).value in types && !FirstNonNull(types).value.NullType?
    ensures FirstNonNull(types).Some? ==>
              exists i :: 0 <= i < |types| && types[i] == FirstNonNull(types).value
                          && forall j | 0 <= j < i :: types[j].NullType?
  {
    if types != [] && types[0].NullType? {
      FirstNonNullIn(types[1..]);
      if FirstNonNull(types).Some? {
        var i :| 0 <= i < |types| - 1 && types[1..][i] == FirstNonNull(types).value
                 && forall j | 0 <= j < i :: types[1..][j].NullType?;
        assert types[i + 1] == FirstNonNull(types).value;
        forall j | 0 <= j < i + 1
          ensures types[j].NullType?
        {
          if j > 0 {
            assert types[1..][j - 1] == types[j];
          }
        }
      } else {
        forall i | 0 <= i < |types|
          ensures types[i].NullType?
        {
          if i > 0 {
            assert types[1..][i - 1] == types[i];
          }
        }
      }
    } else if types != [] {
      assert types[0] == FirstNonNull(types).value;
    }
  }

  /** The type of the last field of that name. */
  lemma FieldTypeIn(fields: seq<Field>, k: GoString)
    ensures FieldType(fields, k).Some? ==>
              exists i :: 0 <= i < |fields| && fields[i].name == k && fields[i].typ == FieldType(fields, k).value
                          && forall j | i < j < |fields| :: fields[j].name != k
    ensures FieldType(fields, k).None? ==> forall i | 0 <= i < |fields| :: fields[i].name != k
  {
    if fields != [] {
      var init, last := fields[..|fields| - 1], |fields| - 1;
      if fields[last].name == k {
        assert fields[last].typ == FieldType(fields, k).value;
      } else {
        FieldTypeIn(init, k);
        assert forall i | 0 <= i < |init| :: init[i] == fields[i];
        if FieldType(fields, k).Some? {
          var i :| 0 <= i < |init| && init[i].name == k && init[i].typ == FieldType(init, k).value
                   && forall j | i < j < |init| :: init[j].name != k;
          assert fields[i].name == k && forall j | i < j < |fields| :: fields[j].name != k;
        }
      }
    }
  }
}
