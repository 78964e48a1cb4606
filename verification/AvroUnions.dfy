/**
 Unions. A union takes a value as it is, if it has the types of some branch, or
 wrapped in a map under the name of a branch (index.d.ts:1088-1090). The normalizer
 knows the first branch that is not null and no wrapper
 (pkg/kafka/schema_registry.go:586-596), so what reaches the encoder differs.
 */
module AvroUnions {
  import opened Prelude
  import opened AvroValues
  import opened AvroLaws
  import opened AvroTyping

  // ----- which branch a value is read as

  /** The index of the first true flag, or how many flags there are. */
  function FirstTrue(flags: seq<bool>): (i: nat)
    ensures i <= |flags|
    ensures i < |flags| ==> flags[i]
    ensures forall j | 0 <= j < i :: !flags[j]
  {
    if flags == [] then 0 else if flags[0] then 0 else
      var i := FirstTrue(flags[1..]);
      assert forall j | 1 <= j < |flags| :: flags[j] == flags[1..][j - 1];
      i + 1
  }

  /** The name a branch is wrapped under. */
  function BranchName(env: Env, s: Schema): GoString
    requires EnvOk(env) && Resolved(env, s)
  {
    match s
    case NullType => Ascii("null")
    case BooleanType => Ascii("boolean")
    case IntType => Ascii("int")
    case LongType => Ascii("long")
    case FloatType => Ascii("float")
    case DoubleType => Ascii("double")
    case BytesType => Ascii("bytes")
    case StringType => Ascii("string")
    case Enum(name) => name
    case Fixed(name, _) => name
    case Record(name, _) => name
    case Array(_) => Ascii("array")
    case MapOf(_) => Ascii("map")
    case Union(_) => Ascii("union")
    case Ref(target) => env.named[target].name
  }

  /** A wrapper: its key, and the branch of that name. */
  datatype Wrapper = Wrapper(key: GoString, branch: nat)

  ghost function OnlyKey(keys: set<GoString>): (k: GoString)
    requires |keys| == 1
    ensures keys == {k}
  {
    var k :| k in keys;
    assert |keys - {k}| == 0;
    k
  }

  /** The wrapper a map with these keys is, if it is one. */
  ghost function WrapOf(env: Env, types: seq<Schema>, keys: set<GoString>): (w: Option<Wrapper>)
    requires EnvOk(env) && forall i | 0 <= i < |types| :: Resolved(env, types[i])
    ensures w.Some? ==> keys == {w.value.key} && w.value.branch < |types|
  {
    if |keys| != 1 then None
    else
      var k := OnlyKey(keys);
      var i := FirstTrue(seq(|types|, i requires 0 <= i < |types| => BranchName(env, types[i]) == k));
      if i < |types| then Some(Wrapper(k, i)) else None
  }

  // ----- what the encoder takes

  /** types can be the branches of a union. */
  predicate Branches(env: Env, types: seq<Schema>) {
    forall i | 0 <= i < |types| :: !types[i].Union? && Resolved(env, types[i])
  }

  /** v has the encoder's types at every position; a union takes the types of any of
      its branches, and a wrapped value of the branch named. */
  ghost predicate Encodable(env: Env, s: Schema, v: Value)
    requires EnvOk(env) && Resolved(env, s)
    decreases if IsNumber(v) then 0 else 1, v, Rank(s)
  {
    match s
    case Record(_, fields) =>
      v.Map? && forall k | k in v.entries ::
        FieldTypeIn(fields, k);
        FieldType(fields, k).Some? ==> Encodable(env, FieldType(fields, k).value, v.entries[k])
    case Array(elem) => v.List? && forall i | 0 <= i < |v.items| :: Encodable(env, elem, v.items[i])
    case MapOf(values) => v.Map? && forall k | k in v.entries :: Encodable(env, values, v.entries[k])
    case Union(types) => FitsWrapped(env, types, v) || DirectBranch(env, types, v) < |types|
    case Ref(target) => Encodable(env, env.named[target], v)
    case _ => PrimitiveConforms(s, v)
  }

  /** v is a wrapper, and what it holds has the types of the branch it names. */
  ghost predicate FitsWrapped(env: Env, types: seq<Schema>, v: Value)
    requires EnvOk(env) && Branches(env, types)
    decreases if IsNumber(v) then 0 else 1, v, 2, 0
  {
    v.Map? &&
    var w := WrapOf(env, types, v.entries.Keys);
    w.Some? && Encodable(env, types[w.value.branch], v.entries[w.value.key])
  }

  /** The first branch whose types v has, or how many branches there are. */
  ghost function DirectBranch(env: Env, types: seq<Schema>, v: Value): (i: nat)
    requires EnvOk(env) && Branches(env, types)
    ensures i <= |types|
    decreases if IsNumber(v) then 0 else 1, v, 2, 1
  {
    FirstTrue(BranchesFit(env, types, v))
  }

  /** For each branch, whether v has its types. */
  ghost function BranchesFit(env: Env, types: seq<Schema>, v: Value): (flags: seq<bool>)
    requires EnvOk(env) && Branches(env, types)
    ensures |flags| == |types|
    decreases if IsNumber(v) then 0 else 1, v, 2, 0
  {
    seq(|types|, i requires 0 <= i < |types| => Encodable(env, types[i], v))
  }

  // ----- what reaches it

  predicate Plain(s: Schema) {
    !s.Union? && !s.Ref?
  }

  predicate Leaf(s: Schema) {
    Plain(s) && !s.Record? && !s.Array? && !s.MapOf?
  }

  /** The schema that normalizes v: references are followed, and a union takes v
      through its first branch that is not null; null itself changes nothing. */
  function Settled(env: Env, s: Schema, v: Value): (t: Schema)
    requires EnvOk(env) && Resolved(env, s)
    ensures Plain(t) && Resolved(env, t)
  {
    match s
    case Ref(target) => env.named[target]
    case Union(types) =>
      FirstNonNullIn(types);
      if v.Nil? || FirstNonNull(types).None? then NullType
      else
        var branch := FirstNonNull(types).value;
        assert Resolved(env, branch);
        if branch.Ref? then env.named[branch.target] else branch
    case _ => s
  }

  /** What a schema makes the normalizer do to an entry of a map. */
  function EntrySchema(s: Schema, k: GoString): Schema {
    match s
    case Record(_, fields) => if FieldType(fields, k).Some? then FieldType(fields, k).value else NullType
    case MapOf(values) => values
    case _ => NullType
  }

  function EntryOf(env: Env, s: Schema, v: Value, k: GoString): (t: Schema)
    requires EnvOk(env) && Resolved(env, s) && v.Map? && k in v.entries
    ensures Plain(t) && Resolved(env, t)
  {
    EntryResolved(env, s, k);
    Settled(env, EntrySchema(s, k), v.entries[k])
  }

  /** And to an element of a list. */
  function ElementSchema(s: Schema): Schema {
    if s.Array? then s.elem else NullType
  }

  function ElementOf(env: Env, s: Schema, v: Value, i: nat): (t: Schema)
    requires EnvOk(env) && Resolved(env, s) && Elements(v).Some? && i < |Elements(v).value|
    ensures Plain(t) && Resolved(env, t)
  {
    Settled(env, ElementSchema(s), Elements(v).value[i])
  }

  lemma EntryResolved(env: Env, s: Schema, k: GoString)
    requires EnvOk(env) && Resolved(env, s)
    ensures Resolved(env, EntrySchema(s, k))
  {
    if s.Record? {
      FieldTypeIn(s.fields, k);
    }
  }

  /** Normalized by s, v is a list. */
  predicate ListAfter(s: Schema, v: Value) {
    if s.Array? then Elements(v).Some? else v.List? && !(s.BytesType? && CoerceBytes(v).Some?)
  }

  /** Normalized by from, v has the type of the primitive schema to: by a conversion,
      or because it had it and met none. */
  predicate LeafReaches(from: Schema, to: Schema, v: Value) {
    match from
    case IntType =>
      if IsNumber(v) && WholeBetween(Number(v).value, MIN_INT32, MAX_INT32) then to == IntType
      else PrimitiveConforms(to, v)
    case LongType =>
      if IsNumber(v) && WholeBetween(Number(v).value, MIN_INT64, MAX_INT64 + 1) then to == LongType
      else PrimitiveConforms(to, v)
    case FloatType => if IsNumber(v) then to == FloatType else PrimitiveConforms(to, v)
    case DoubleType => if IsNumber(v) then to == DoubleType else PrimitiveConforms(to, v)
    case BytesType => if CoerceBytes(v).Some? then to == BytesType else PrimitiveConforms(to, v)
    case Array(_) => Elements(v).None? && PrimitiveConforms(to, v)
    case _ => PrimitiveConforms(to, v)
  }

  /** Normalized by from, v has the types of to. */
  ghost predicate Reaches(env: Env, from: Schema, to: Schema, v: Value)
    requires EnvOk(env) && Resolved(env, from) && Plain(from) && Resolved(env, to)
    decreases if IsNumber(v) then 0 else 1, v, Rank(to)
  {
    match to
    case Record(_, fields) =>
      v.Map? && forall k | k in v.entries ::
        FieldTypeIn(fields, k);
        FieldType(fields, k).Some? ==> Reaches(env, EntryOf(env, from, v, k), FieldType(fields, k).value, v.entries[k])
    case Array(elem) =>
      ListAfter(from, v) && forall i | 0 <= i < |Elements(v).value| ::
        ElementSmaller(v, i);
        Reaches(env, ElementOf(env, from, v, i), elem, Elements(v).value[i])
    case MapOf(values) =>
      v.Map? && forall k | k in v.entries :: Reaches(env, EntryOf(env, from, v, k), values, v.entries[k])
    case Union(types) => ReachesWrapped(env, from, types, v) || ReachedBranch(env, from, types, v) < |types|
    case Ref(target) => Reaches(env, from, env.named[target], v)
    case _ => LeafReaches(from, to, v)
  }

  /** v is a wrapper, and what it holds reaches the branch it names. */
  ghost predicate ReachesWrapped(env: Env, from: Schema, types: seq<Schema>, v: Value)
    requires EnvOk(env) && Resolved(env, from) && Plain(from) && Branches(env, types)
    decreases if IsNumber(v) then 0 else 1, v, 2, 0
  {
    v.Map? &&
    var w := WrapOf(env, types, v.entries.Keys);
    w.Some?
    && Reaches(env, EntryOf(env, from, v, w.value.key), types[w.value.branch], v.entries[w.value.key])
  }

  /** The first branch that v reaches as it is, or how many branches there are. */
  ghost function ReachedBranch(env: Env, from: Schema, types: seq<Schema>, v: Value): (i: nat)
    requires EnvOk(env) && Resolved(env, from) && Plain(from) && Branches(env, types)
    ensures i <= |types|
    decreases if IsNumber(v) then 0 else 1, v, 2, 1
  {
    FirstTrue(BranchesReached(env, from, types, v))
  }

  ghost function BranchesReached(env: Env, from: Schema, types: seq<Schema>, v: Value): (flags: seq<bool>)
    requires EnvOk(env) && Resolved(env, from) && Plain(from) && Branches(env, types)
    ensures |flags| == |types|
    decreases if IsNumber(v) then 0 else 1, v, 2, 0
  {
    seq(|types|, i requires 0 <= i < |types| => Reaches(env, from, types[i], v))
  }

  /** Normalized by s, v has the types of s, in whatever branches and wrapped or not. */
  ghost predicate ReachesEncoder(env: Env, s: Schema, v: Value)
    requires EnvOk(env) && Resolved(env, s)
  {
    Reaches(env, Settled(env, s, v), s, v)
  }

  // ----- the shape of a normalized value

  lemma SettledNormalizes(env: Env, s: Schema, v: Value)
    requires EnvOk(env) && Resolved(env, s)
    ensures Normalize(env, s, v) == Normalize(env, Settled(env, s, v), v)
  {
    if s.Union? {
      FirstNonNullIn(s.types);
    }
  }

  lemma MapShape(env: Env, s: Schema, v: Value)
    requires EnvOk(env) && Resolved(env, s) && Plain(s)
    ensures Normalize(env, s, v).Map? <==> v.Map?
    ensures v.Map? ==> Normalize(env, s, v).entries.Keys == v.entries.Keys
  {
  }

  lemma EntryShape(env: Env, s: Schema, v: Value, k: GoString)
    requires EnvOk(env) && Resolved(env, s) && Plain(s) && v.Map? && k in v.entries
    ensures Normalize(env, s, v).Map? && k in Normalize(env, s, v).entries
    ensures Normalize(env, s, v).entries[k] == Normalize(env, EntryOf(env, s, v, k), v.entries[k])
  {
    EntryResolved(env, s, k);
    SettledNormalizes(env, EntrySchema(s, k), v.entries[k]);
    MapShape(env, s, v);
    if s.Record? {
      RecordEntry(env, s, v, k);
    }
  }

  lemma ListShape(env: Env, s: Schema, v: Value)
    requires EnvOk(env) && Resolved(env, s) && Plain(s)
    ensures Normalize(env, s, v).List? <==> ListAfter(s, v)
    ensures ListAfter(s, v) ==> Elements(v).Some? && |Normalize(env, s, v).items| == |Elements(v).value|
  {
  }

  lemma ItemShape(env: Env, s: Schema, v: Value, i: nat)
    requires EnvOk(env) && Resolved(env, s) && Plain(s) && ListAfter(s, v)
    requires Elements(v).Some? && i < |Elements(v).value|
    ensures Normalize(env, s, v).List? && i < |Normalize(env, s, v).items|
    ensures Normalize(env, s, v).items[i] == Normalize(env, ElementOf(env, s, v, i), Elements(v).value[i])
  {
    ListShape(env, s, v);
    SettledNormalizes(env, ElementSchema(s), Elements(v).value[i]);
  }

  lemma LeafShape(env: Env, s: Schema, to: Schema, v: Value)
    requires EnvOk(env) && Resolved(env, s) && Plain(s) && Leaf(to)
    ensures PrimitiveConforms(to, Normalize(env, s, v)) <==> LeafReaches(s, to, v)
  {
    if s.Record? || s.MapOf? || s.Array? {
      MapShape(env, s, v);
    } else {
      PrimitiveReaches(env, s, to, v);
    }
  }

  lemma PrimitiveReaches(env: Env, s: Schema, to: Schema, v: Value)
    requires EnvOk(env) && Leaf(s) && Leaf(to)
    ensures PrimitiveConforms(to, NormalizePrimitive(env, s, v)) <==> LeafReaches(s, to, v)
  {
  }

  // ----- the exact condition

  /** Normalizing makes a value one the encoder takes exactly when this is so at every
      position, by the guard of each conversion. */
  lemma NormalizeReaches(env: Env, s: Schema, v: Value)
    requires EnvOk(env) && Resolved(env, s)
    ensures Encodable(env, s, Normalize(env, s, v)) <==> ReachesEncoder(env, s, v)
  {
    SettledNormalizes(env, s, v);
    ReachesExact(env, Settled(env, s, v), s, v, Normalize(env, s, v));
  }

  /** The same for normalizing by one schema and reading as another. */
  lemma {:induction false} ReachesExact(env: Env, from: Schema, to: Schema, v: Value, r: Value)
    requires EnvOk(env) && Resolved(env, from) && Plain(from) && Resolved(env, to) && r == Normalize(env, from, v)
    ensures Encodable(env, to, r) <==> Reaches(env, from, to, v)
    decreases if IsNumber(v) then 0 else 1, v, Rank(to), 1
  {
    if to.Record? { ReachesRecord(env, from, to, v, r); }
    else if to.Array? { ReachesArray(env, from, to, v, r); }
    else if to.MapOf? { ReachesMap(env, from, to, v, r); }
    else if to.Union? { ReachesUnion(env, from, to, v, r); }
    else if to.Ref? { ReachesExact(env, from, env.named[to.target], v, r); }
    else { ReachesLeaf(env, from, to, v, r); }
  }

  lemma ReachesLeaf(env: Env, from: Schema, to: Schema, v: Value, r: Value)
    requires EnvOk(env) && Resolved(env, from) && Plain(from) && Leaf(to) && r == Normalize(env, from, v)
    ensures Encodable(env, to, r) <==> Reaches(env, from, to, v)
  {
    LeafShape(env, from, to, v);
  }

  lemma {:induction false} ReachesRecord(env: Env, from: Schema, to: Schema, v: Value, r: Value)
    requires EnvOk(env) && Resolved(env, from) && Plain(from) && Resolved(env, to) && r == Normalize(env, from, v)
    requires to.Record?
    ensures Encodable(env, to, r) <==> Reaches(env, from, to, v)
    decreases if IsNumber(v) then 0 else 1, v, Rank(to), 0
  {
    MapShape(env, from, v);
    if v.Map? {
      forall k | k in v.entries
        ensures FieldType(to.fields, k).Some? ==> Resolved(env, FieldType(to.fields, k).value)
        ensures FieldType(to.fields, k).Some? ==>
                  (Encodable(env, FieldType(to.fields, k).value, r.entries[k])
                   <==> Reaches(env, EntryOf(env, from, v, k), FieldType(to.fields, k).value, v.entries[k]))
      {
        FieldTypeIn(to.fields, k);
        if FieldType(to.fields, k).Some? {
          EntryShape(env, from, v, k);
          ReachesExact(env, EntryOf(env, from, v, k), FieldType(to.fields, k).value, v.entries[k], r.entries[k]);
        }
      }
    }
  }

  lemma {:induction false} ReachesArray(env: Env, from: Schema, to: Schema, v: Value, r: Value)
    requires EnvOk(env) && Resolved(env, from) && Plain(from) && Resolved(env, to) && r == Normalize(env, from, v)
    requires to.Array?
    ensures Encodable(env, to, r) <==> Reaches(env, from, to, v)
    decreases if IsNumber(v) then 0 else 1, v, Rank(to), 0
  {
    ListShape(env, from, v);
    if ListAfter(from, v) {
      forall i | 0 <= i < |r.items|
        ensures Encodable(env, to.elem, r.items[i])
                <==> Reaches(env, ElementOf(env, from, v, i), to.elem, Elements(v).value[i])
      {
        ItemShape(env, from, v, i);
        ElementSmaller(v, i);
        ReachesExact(env, ElementOf(env, from, v, i), to.elem, Elements(v).value[i], r.items[i]);
      }
    }
  }

  lemma {:induction false} ReachesMap(env: Env, from: Schema, to: Schema, v: Value, r: Value)
    requires EnvOk(env) && Resolved(env, from) && Plain(from) && Resolved(env, to) && r == Normalize(env, from, v)
    requires to.MapOf?
    ensures Encodable(env, to, r) <==> Reaches(env, from, to, v)
    decreases if IsNumber(v) then 0 else 1, v, Rank(to), 0
  {
    MapShape(env, from, v);
    if v.Map? {
      forall k | k in v.entries
        ensures Encodable(env, to.values, r.entries[k])
                <==> Reaches(env, EntryOf(env, from, v, k), to.values, v.entries[k])
      {
        EntryShape(env, from, v, k);
        ReachesExact(env, EntryOf(env, from, v, k), to.values, v.entries[k], r.entries[k]);
      }
    }
  }

  lemma {:induction false} ReachesUnion(env: Env, from: Schema, to: Schema, v: Value, r: Value)
    requires EnvOk(env) && Resolved(env, from) && Plain(from) && Resolved(env, to) && r == Normalize(env, from, v)
    requires to.Union?
    ensures Encodable(env, to, r) <==> Reaches(env, from, to, v)
    decreases if IsNumber(v) then 0 else 1, v, 2, 0, 3
  {
    WrappedExact(env, from, to.types, v, r);
    BranchExact(env, from, to.types, v, r);
  }

  /** A wrapper stays one, and its content is normalized as an entry. */
  lemma {:induction false} WrappedExact(env: Env, from: Schema, types: seq<Schema>, v: Value, r: Value)
    requires EnvOk(env) && Resolved(env, from) && Plain(from) && Branches(env, types) && r == Normalize(env, from, v)
    ensures FitsWrapped(env, types, r) <==> ReachesWrapped(env, from, types, v)
    decreases if IsNumber(v) then 0 else 1, v, 2, 0, 0
  {
    MapShape(env, from, v);
    if v.Map? {
      var w := WrapOf(env, types, v.entries.Keys);
      if w.Some? {
        var k := w.value.key;
        EntryShape(env, from, v, k);
        ReachesExact(env, EntryOf(env, from, v, k), types[w.value.branch], v.entries[k], r.entries[k]);
      }
    }
  }

  lemma {:induction false} BranchExact(env: Env, from: Schema, types: seq<Schema>, v: Value, r: Value)
    requires EnvOk(env) && Resolved(env, from) && Plain(from) && Branches(env, types) && r == Normalize(env, from, v)
    ensures DirectBranch(env, types, r) == ReachedBranch(env, from, types, v)
    decreases if IsNumber(v) then 0 else 1, v, 2, 0, 2
  {
    BranchesSame(env, from, types, v, r, BranchesFit(env, types, r), BranchesReached(env, from, types, v));
  }

  lemma {:induction false} BranchesSame(
    env: Env, from: Schema, types: seq<Schema>, v: Value, r: Value, fit: seq<bool>, reached: seq<bool>)
    requires EnvOk(env) && Resolved(env, from) && Plain(from) && Branches(env, types) && r == Normalize(env, from, v)
    requires fit == BranchesFit(env, types, r) && reached == BranchesReached(env, from, types, v)
    ensures fit == reached
    decreases if IsNumber(v) then 0 else 1, v, 2, 0, 1
  {
    forall i | 0 <= i < |types|
      ensures fit[i] == reached[i]
    {
      BranchAt(env, from, types, v, r, i);
    }
  }

  lemma {:induction false} BranchAt(env: Env, from: Schema, types: seq<Schema>, v: Value, r: Value, i: nat)
    requires EnvOk(env) && Resolved(env, from) && Plain(from) && Branches(env, types) && r == Normalize(env, from, v)
    requires i < |types|
    ensures BranchesFit(env, types, r)[i] == BranchesReached(env, from, types, v)[i]
    decreases if IsNumber(v) then 0 else 1, v, 2, 0, 0
  {
    ReachesExact(env, from, types[i], v, r);
  }

  // ----- against the first branch, and without conversion

  /** What has the types of first branches everywhere has those of some branch. */
  lemma {:induction false} ConformsEncodable(env: Env, s: Schema, v: Value)
    requires EnvOk(env) && Resolved(env, s) && Conforms(env, s, v)
    ensures Encodable(env, s, v)
    decreases if IsNumber(v) then 0 else 1, v, Rank(s)
  {
    match s
    case Record(_, fields) =>
      forall k | k in v.entries && FieldType(fields, k).Some?
        ensures Resolved(env, FieldType(fields, k).value) && Encodable(env, FieldType(fields, k).value, v.entries[k])
      {
        FieldTypeIn(fields, k);
        ConformsEncodable(env, FieldType(fields, k).value, v.entries[k]);
      }
    case Array(elem) =>
      forall i | 0 <= i < |v.items|
        ensures Encodable(env, elem, v.items[i])
      {
        ConformsEncodable(env, elem, v.items[i]);
      }
    case MapOf(values) =>
      forall k | k in v.entries
        ensures Encodable(env, values, v.entries[k])
      {
        ConformsEncodable(env, values, v.entries[k]);
      }
    case Union(types) =>
      FirstNonNullIn(types);
      var branch := if v.Nil? then NullType else FirstNonNull(types).value;
      if !v.Nil? {
        ConformsEncodable(env, branch, v);
      }
      InSomeBranch(env, types, branch, v);
    case Ref(target) => ConformsEncodable(env, env.named[target], v);
    case _ =>
  }

  lemma InSomeBranch(env: Env, types: seq<Schema>, branch: Schema, v: Value)
    requires EnvOk(env) && Branches(env, types)
    requires branch in types && Encodable(env, branch, v)
    ensures DirectBranch(env, types, v) < |types|
  {
    var i :| 0 <= i < |types| && types[i] == branch;
    assert BranchesFit(env, types, v)[i];
  }

  /** Every acceptable value reaches the encoder. */
  lemma AcceptableReaches(env: Env, s: Schema, v: Value)
    requires EnvOk(env) && Resolved(env, s) && Acceptable(env, s, v)
    ensures ReachesEncoder(env, s, v)
  {
    NormalizeEstablishesTypes(env, s, v);
    ConformsEncodable(env, s, Normalize(env, s, v));
    NormalizeReaches(env, s, v);
  }

  /** What the normalizer leaves alone reaches the encoder as it is. */
  lemma UnconvertedReaches(env: Env, to: Schema, v: Value)
    requires EnvOk(env) && Resolved(env, to)
    ensures Reaches(env, NullType, to, v) <==> Encodable(env, to, v)
  {
    ReachesExact(env, NullType, to, v, v);
  }

  /** Unless the first branch is a map, or a record with such a field, what a wrapper
      holds is not converted: it reaches the encoder exactly if it already has the
      types of the branch named. */
  lemma WrappedUnconverted(env: Env, from: Schema, types: seq<Schema>, v: Value, w: Wrapper)
    requires EnvOk(env) && Branches(env, types) && v.Map? && WrapOf(env, types, v.entries.Keys) == Some(w)
    requires from == Settled(env, Union(types), v) && EntrySchema(from, w.key) == NullType
    ensures ReachesWrapped(env, from, types, v) <==> Encodable(env, types[w.branch], v.entries[w.key])
  {
    UnconvertedReaches(env, types[w.branch], v.entries[w.key]);
  }

  // ----- a nullable leaf, wrapped, and a leaf of a later branch

  lemma NullableWrapOf(env: Env, types: seq<Schema>, t: Schema, name: GoString)
    requires EnvOk(env) && Leaf(t) && types == [NullType, t]
    requires name == BranchName(env, t) && name != BranchName(env, NullType)
    ensures Branches(env, types) && WrapOf(env, types, {name}) == Some(Wrapper(name, 1))
  {
    var named := seq(|types|, i requires 0 <= i < |types| => BranchName(env, types[i]) == name);
    assert !named[0] && named[1];
  }

  /** Wrapped, a value of a nullable leaf reaches the encoder exactly if it already has
      the type the encoder wants: the normalizer does not look inside the wrapper. */
  lemma NullableWrapped(env: Env, t: Schema, v: Value, name: GoString, x: Value)
    requires EnvOk(env) && Leaf(t) && v == Map(map[name := x])
    requires name == BranchName(env, t) && name != BranchName(env, NullType)
    ensures Resolved(env, Union([NullType, t]))
    ensures Normalize(env, Union([NullType, t]), v) == v
    ensures ReachesEncoder(env, Union([NullType, t]), v) <==> PrimitiveConforms(t, x)
  {
    var types := [NullType, t];
    NullableWrapOf(env, types, t, name);
    assert v.entries.Keys == {name};
    assert FirstNonNull(types) == Some(t);
    SettledNormalizes(env, Union(types), v);
    WrappedUnconverted(env, t, types, v, Wrapper(name, 1));
    NoLeafTakesMaps(env, t, types, v);
  }

  lemma NoLeafTakesMaps(env: Env, from: Schema, types: seq<Schema>, v: Value)
    requires EnvOk(env) && Leaf(from) && Branches(env, types) && v.Map?
    requires forall i | 0 <= i < |types| :: Leaf(types[i])
    ensures Normalize(env, from, v) == v && ReachedBranch(env, from, types, v) == |types|
  {
    forall i | 0 <= i < |types|
      ensures !BranchesReached(env, from, types, v)[i]
    {
      assert !LeafReaches(from, types[i], v);
    }
  }

  /** An int64 under a nullable int: passed directly it is converted, if it is in
      range, and reaches the encoder; wrapped it stays an int64 and does not. */
  lemma WrappedIntKept(env: Env, s: Schema, n: int)
    requires EnvOk(env) && s == Union([NullType, IntType]) && MIN_INT32 <= n <= MAX_INT32
    ensures Resolved(env, s)
    ensures Normalize(env, s, Int(W64, n)) == Int(W32, n) && ReachesEncoder(env, s, Int(W64, n))
    ensures var v := Map(map[Ascii("int") := Int(W64, n)]);
            Normalize(env, s, v) == v && !ReachesEncoder(env, s, v)
  {
    assert |Ascii("int")| == 3 && |Ascii("null")| == 4;
    NullableWrapped(env, IntType, Map(map[Ascii("int") := Int(W64, n)]), Ascii("int"), Int(W64, n));
    assert FirstNonNull(s.types) == Some(IntType);
    SmallIntExact(n);
    WholeUnits(n);
    AcceptableReaches(env, s, Int(W64, n));
  }

  /** A string under a nullable string reaches the encoder either way. */
  lemma WrappedStringReaches(env: Env, s: Schema, text: GoString)
    requires EnvOk(env) && s == Union([NullType, StringType])
    ensures Resolved(env, s)
    ensures ReachesEncoder(env, s, Str(text))
    ensures var v := Map(map[Ascii("string") := Str(text)]);
            Normalize(env, s, v) == v && ReachesEncoder(env, s, v)
  {
    assert |Ascii("string")| == 6 && |Ascii("null")| == 4;
    NullableWrapped(env, StringType, Map(map[Ascii("string") := Str(text)]), Ascii("string"), Str(text));
    assert FirstNonNull(s.types) == Some(StringType);
    AcceptableReaches(env, s, Str(text));
  }

  /** An int64 that only a later branch takes is not converted, and does not reach it. */
  lemma LaterIntKept(env: Env, s: Schema, n: int)
    requires EnvOk(env) && s == Union([StringType, IntType])
    ensures Resolved(env, s) && Normalize(env, s, Int(W64, n)) == Int(W64, n)
    ensures !ReachesEncoder(env, s, Int(W64, n))
  {
    var v := Int(W64, n);
    assert FirstNonNull(s.types) == Some(StringType);
    SettledNormalizes(env, s, v);
    forall i | 0 <= i < 2
      ensures !BranchesReached(env, StringType, s.types, v)[i]
    {
      assert !LeafReaches(StringType, s.types[i], v);
    }
    assert ReachedBranch(env, StringType, s.types, v) == 2;
    assert !Reaches(env, StringType, s, v);
  }
}
