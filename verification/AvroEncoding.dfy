/**
 What an Avro encoding can hold. A record is encoded as the values of its schema's
 fields and nothing else (Apache Avro specification, section "Complex Types" of
 "Binary Encoding"), so a key that is no field is not written; a field that is left
 out is written as its default. The normalizer keeps both kinds of record as they are
 (pkg/kafka/schema_registry.go:538-550), and what comes back differs. A union is
 encoded as the value of one branch, so a wrapper does not come back.
 */
module AvroEncoding {
  import opened Prelude
  import opened AvroValues
  import opened AvroLaws
  import opened AvroUnions

  function FieldNames(fields: seq<Field>): set<GoString> {
    set i | 0 <= i < |fields| :: fields[i].name
  }

  /** The default of field k; a later field of the same name wins. */
  function FieldDefault(fields: seq<Field>, k: GoString): Option<Value> {
    if fields == [] then None
    else if fields[|fields| - 1].name == k then fields[|fields| - 1].fallback
    else FieldDefault(fields[..|fields| - 1], k)
  }

  /** The content of the encoding of v. A union reads v as a wrapper, if its content
      has the types of the branch named, and otherwise as its first fitting branch. */
  ghost function Written(env: Env, s: Schema, v: Value): Meaning
    requires EnvOk(env) && Resolved(env, s)
    decreases if IsNumber(v) then 0 else 1, v, Rank(s), 1
  {
    match s
    case Record(_, fields) => if v.Map? then Keyed(WrittenFields(env, fields, v)) else MeaningOf(v)
    case Array(elem) => if v.List? then Several(WrittenItems(env, elem, v)) else MeaningOf(v)
    case MapOf(values) => if v.Map? then Keyed(WrittenEntries(env, values, v)) else MeaningOf(v)
    case Union(types) =>
      if FitsWrapped(env, types, v) then
        var w := WrapOf(env, types, v.entries.Keys).value;
        Written(env, types[w.branch], v.entries[w.key])
      else
        var i := DirectBranch(env, types, v);
        if i < |types| then Written(env, types[i], v) else MeaningOf(v)
    case Ref(target) => Written(env, env.named[target], v)
    case _ => MeaningOf(v)
  }

  ghost function WrittenFields(env: Env, fields: seq<Field>, v: Value): map<GoString, Meaning>
    requires EnvOk(env) && (forall i | 0 <= i < |fields| :: Resolved(env, fields[i].typ)) && v.Map?
    decreases 1, v, 0, 0
  {
    map k | k in FieldNames(fields) && (k in v.entries || FieldDefault(fields, k).Some?) ::
      FieldTypeIn(fields, k);
      if k in v.entries then Written(env, FieldType(fields, k).value, v.entries[k])
      else MeaningOf(FieldDefault(fields, k).value)
  }

  ghost function WrittenItems(env: Env, elem: Schema, v: Value): (ms: seq<Meaning>)
    requires EnvOk(env) && Resolved(env, elem) && v.List?
    ensures |ms| == |v.items|
    decreases 1, v, 0, 0
  {
    seq(|v.items|, i requires 0 <= i < |v.items| => Written(env, elem, v.items[i]))
  }

  ghost function WrittenEntries(env: Env, values: Schema, v: Value): (ms: map<GoString, Meaning>)
    requires EnvOk(env) && Resolved(env, values) && v.Map?
    ensures ms.Keys == v.entries.Keys
    decreases 1, v, 0, 0
  {
    map k | k in v.entries :: Written(env, values, v.entries[k])
  }

  // ----- what a value means once its wrappers are taken off

  /** The content of v, normalized by from and read as to: its own, but for wrappers. */
  ghost function Meant(env: Env, from: Schema, to: Schema, v: Value): Meaning
    requires EnvOk(env) && Resolved(env, from) && Plain(from) && Resolved(env, to)
    decreases if IsNumber(v) then 0 else 1, v, Rank(to), 1
  {
    match to
    case Record(_, fields) => if v.Map? then Keyed(MeantFields(env, from, fields, v)) else MeaningOf(v)
    case Array(elem) => if ListAfter(from, v) then Several(MeantItems(env, from, elem, v)) else MeaningOf(v)
    case MapOf(values) => if v.Map? then Keyed(MeantEntries(env, from, values, v)) else MeaningOf(v)
    case Union(types) =>
      if ReachesWrapped(env, from, types, v) then
        var w := WrapOf(env, types, v.entries.Keys).value;
        Meant(env, EntryOf(env, from, v, w.key), types[w.branch], v.entries[w.key])
      else
        var i := ReachedBranch(env, from, types, v);
        if i < |types| then Meant(env, from, types[i], v) else MeaningOf(v)
    case Ref(target) => Meant(env, from, env.named[target], v)
    case _ => MeaningOf(v)
  }

  ghost function MeantFields(env: Env, from: Schema, fields: seq<Field>, v: Value): (m: map<GoString, Meaning>)
    requires EnvOk(env) && Resolved(env, from) && Plain(from) && v.Map?
    requires forall i | 0 <= i < |fields| :: Resolved(env, fields[i].typ)
    ensures m.Keys == v.entries.Keys
    decreases 1, v, 0, 0
  {
    map k | k in v.entries ::
      FieldTypeIn(fields, k);
      if FieldType(fields, k).Some? then Meant(env, EntryOf(env, from, v, k), FieldType(fields, k).value, v.entries[k])
      else MeaningOf(v.entries[k])
  }

  ghost function MeantItems(env: Env, from: Schema, elem: Schema, v: Value): (ms: seq<Meaning>)
    requires EnvOk(env) && Resolved(env, from) && Plain(from) && Resolved(env, elem) && ListAfter(from, v)
    ensures Elements(v).Some? && |ms| == |Elements(v).value|
    decreases 1, v, 0, 0
  {
    seq(|Elements(v).value|, i requires 0 <= i < |Elements(v).value| =>
      ElementSmaller(v, i);
      Meant(env, ElementOf(env, from, v, i), elem, Elements(v).value[i]))
  }

  ghost function MeantEntries(env: Env, from: Schema, values: Schema, v: Value): (ms: map<GoString, Meaning>)
    requires EnvOk(env) && Resolved(env, from) && Plain(from) && Resolved(env, values) && v.Map?
    ensures ms.Keys == v.entries.Keys
    decreases 1, v, 0, 0
  {
    map k | k in v.entries :: Meant(env, EntryOf(env, from, v, k), values, v.entries[k])
  }

  /** A record with these keys has the schema's fields: a key for each defaulted field,
      and none that is no field. */
  predicate KeysExactly(fields: seq<Field>, keys: set<GoString>) {
    && (forall k | k in FieldNames(fields) :: FieldDefault(fields, k).Some? ==> k in keys)
    && (forall k | k in keys :: k in FieldNames(fields))
  }

  /** Every record read in v has exactly the schema's fields. */
  ghost predicate FieldsExactly(env: Env, from: Schema, to: Schema, v: Value)
    requires EnvOk(env) && Resolved(env, from) && Plain(from) && Resolved(env, to)
    decreases if IsNumber(v) then 0 else 1, v, Rank(to)
  {
    match to
    case Record(_, fields) =>
      v.Map? ==>
        && KeysExactly(fields, v.entries.Keys)
        && (forall k | k in v.entries ::
              FieldTypeIn(fields, k);
              FieldsExactly(env, EntryOf(env, from, v, k), FieldType(fields, k).value, v.entries[k]))
    case Array(elem) =>
      ListAfter(from, v) ==> forall i | 0 <= i < |Elements(v).value| ::
        ElementSmaller(v, i);
        FieldsExactly(env, ElementOf(env, from, v, i), elem, Elements(v).value[i])
    case MapOf(values) =>
      v.Map? ==> forall k | k in v.entries :: FieldsExactly(env, EntryOf(env, from, v, k), values, v.entries[k])
    case Union(types) =>
      if ReachesWrapped(env, from, types, v) then
        var w := WrapOf(env, types, v.entries.Keys).value;
        FieldsExactly(env, EntryOf(env, from, v, w.key), types[w.branch], v.entries[w.key])
      else
        var i := ReachedBranch(env, from, types, v);
        i < |types| ==> FieldsExactly(env, from, types[i], v)
    case Ref(target) => FieldsExactly(env, from, env.named[target], v)
    case _ => true
  }

  // ----- what is kept, entry by entry and element by element

  lemma SettledKeeps(env: Env, s: Schema, v: Value)
    requires EnvOk(env) && Resolved(env, s)
    ensures Kept(env, s, v) <==> Kept(env, Settled(env, s, v), v)
  {
    if s.Union? {
      FirstNonNullIn(s.types);
    }
  }

  lemma KeptEntries(env: Env, s: Schema, v: Value)
    requires EnvOk(env) && Resolved(env, s) && Plain(s) && v.Map?
    ensures Kept(env, s, v) <==> forall k | k in v.entries :: Kept(env, EntryOf(env, s, v, k), v.entries[k])
  {
    forall k | k in v.entries
      ensures Resolved(env, EntrySchema(s, k))
      ensures Kept(env, EntryOf(env, s, v, k), v.entries[k]) <==> Kept(env, EntrySchema(s, k), v.entries[k])
    {
      EntryResolved(env, s, k);
      SettledKeeps(env, EntrySchema(s, k), v.entries[k]);
    }
    KeptBySchema(env, s, v);
  }

  lemma KeptBySchema(env: Env, s: Schema, v: Value)
    requires EnvOk(env) && Resolved(env, s) && Plain(s) && v.Map?
    requires forall k | k in v.entries :: Resolved(env, EntrySchema(s, k))
    ensures Kept(env, s, v) <==> forall k | k in v.entries :: Kept(env, EntrySchema(s, k), v.entries[k])
  {
  }

  lemma KeptItems(env: Env, s: Schema, v: Value)
    requires EnvOk(env) && Resolved(env, s) && Plain(s) && ListAfter(s, v)
    ensures Elements(v).Some?
    ensures Kept(env, s, v) <==>
            forall i | 0 <= i < |Elements(v).value| :: Kept(env, ElementOf(env, s, v, i), Elements(v).value[i])
  {
    forall i | 0 <= i < |Elements(v).value|
      ensures Kept(env, ElementOf(env, s, v, i), Elements(v).value[i])
              <==> Kept(env, ElementSchema(s), Elements(v).value[i])
    {
      SettledKeeps(env, ElementSchema(s), Elements(v).value[i]);
    }
  }

  // ----- the theorem

  /** The encoding of r holds what v meant. */
  ghost predicate Same(env: Env, from: Schema, to: Schema, v: Value, r: Value)
    requires EnvOk(env) && Resolved(env, from) && Plain(from) && Resolved(env, to)
  {
    Written(env, to, r) == Meant(env, from, to, v)
  }

  /** No leaf of v is too wide, and its records have the schema's fields. */
  ghost predicate Fine(env: Env, from: Schema, to: Schema, v: Value)
    requires EnvOk(env) && Resolved(env, from) && Plain(from) && Resolved(env, to)
  {
    Kept(env, from, v) && FieldsExactly(env, from, to, v)
  }

  /** The encoding of a normalized value holds what the value meant, wrappers taken
      off, exactly when no leaf was too wide and its records have the schema's fields. */
  lemma WrittenExact(env: Env, s: Schema, v: Value)
    requires EnvOk(env) && Resolved(env, s)
    ensures var from := Settled(env, s, v);
            Written(env, s, Normalize(env, s, v)) == Meant(env, from, s, v)
            <==> Kept(env, s, v) && FieldsExactly(env, from, s, v)
  {
    SettledNormalizes(env, s, v);
    SettledKeeps(env, s, v);
    SameExact(env, Settled(env, s, v), s, v, Normalize(env, s, v));
  }

  /** The same for normalizing by one schema and reading as another. */
  lemma {:induction false} SameExact(env: Env, from: Schema, to: Schema, v: Value, r: Value)
    requires EnvOk(env) && Resolved(env, from) && Plain(from) && Resolved(env, to) && r == Normalize(env, from, v)
    ensures Same(env, from, to, v, r) <==> Fine(env, from, to, v)
    decreases if IsNumber(v) then 0 else 1, v, Rank(to), 1
  {
    if to.Union? {
      SameUnion(env, from, to, v, r);
    } else if to.Ref? {
      RefSame(env, from, to, v, r);
      RefFields(env, from, to, v);
      SameExact(env, from, env.named[to.target], v, r);
    } else if to.Record? && v.Map? {
      SameRecord(env, from, to, v, r);
    } else if to.MapOf? && v.Map? {
      SameMap(env, from, to, v, r);
    } else if to.Array? && ListAfter(from, v) {
      SameArray(env, from, to, v, r);
    } else {
      SameOther(env, from, to, v, r);
    }
  }

  lemma RefSame(env: Env, from: Schema, to: Schema, v: Value, r: Value)
    requires EnvOk(env) && Resolved(env, from) && Plain(from) && Resolved(env, to) && to.Ref?
    ensures Same(env, from, to, v, r) == Same(env, from, env.named[to.target], v, r)
  {
  }

  lemma RefFields(env: Env, from: Schema, to: Schema, v: Value)
    requires EnvOk(env) && Resolved(env, from) && Plain(from) && Resolved(env, to) && to.Ref?
    ensures FieldsExactly(env, from, to, v) == FieldsExactly(env, from, env.named[to.target], v)
  {
  }

  /** A leaf, or a value of another shape than the schema. */
  lemma SameOther(env: Env, from: Schema, to: Schema, v: Value, r: Value)
    requires EnvOk(env) && Resolved(env, from) && Plain(from) && Resolved(env, to) && r == Normalize(env, from, v)
    requires Plain(to) && (to.Record? || to.MapOf? ==> !v.Map?) && (to.Array? ==> !ListAfter(from, v))
    ensures Same(env, from, to, v, r) <==> Fine(env, from, to, v)
  {
    MapShape(env, from, v);
    ListShape(env, from, v);
    NormalizeKeepsMeaning(env, from, v);
    OtherWritten(env, from, to, v, r);
    assert FieldsExactly(env, from, to, v);
  }

  lemma OtherWritten(env: Env, from: Schema, to: Schema, v: Value, r: Value)
    requires EnvOk(env) && Resolved(env, from) && Plain(from) && Resolved(env, to) && Plain(to)
    requires (to.Record? || to.MapOf? ==> !v.Map? && !r.Map?) && (to.Array? ==> !ListAfter(from, v) && !r.List?)
    ensures Written(env, to, r) == MeaningOf(r) && Meant(env, from, to, v) == MeaningOf(v)
  {
  }

  // ----- records

  lemma FieldsResolved(env: Env, fields: seq<Field>)
    requires EnvOk(env) && forall i | 0 <= i < |fields| :: Resolved(env, fields[i].typ)
    ensures forall k | k in FieldNames(fields) ::
              FieldType(fields, k).Some? && Resolved(env, FieldType(fields, k).value)
  {
    forall k | k in FieldNames(fields)
      ensures FieldType(fields, k).Some? && Resolved(env, FieldType(fields, k).value)
    {
      FieldTypeIn(fields, k);
    }
  }

  lemma MapsEqual(a: map<GoString, Meaning>, b: map<GoString, Meaning>)
    ensures a == b <==> a.Keys == b.Keys && forall k | k in a && k in b :: a[k] == b[k]
  {
  }

  lemma RecordKeys(env: Env, from: Schema, to: Schema, v: Value, r: Value)
    requires EnvOk(env) && Resolved(env, from) && Plain(from) && Resolved(env, to) && to.Record?
    requires v.Map? && r.Map? && r.entries.Keys == v.entries.Keys
    ensures Same(env, from, to, v, r) <==> MeantFields(env, from, to.fields, v) == WrittenFields(env, to.fields, r)
    ensures MeantFields(env, from, to.fields, v).Keys == WrittenFields(env, to.fields, r).Keys
            <==> KeysExactly(to.fields, v.entries.Keys)
    ensures forall k | k in v.entries && k in FieldNames(to.fields) :: k in WrittenFields(env, to.fields, r)
    ensures forall k | k in WrittenFields(env, to.fields, r) :: k in FieldNames(to.fields)
  {
  }

  lemma RecordFine(env: Env, from: Schema, to: Schema, v: Value)
    requires EnvOk(env) && Resolved(env, from) && Plain(from) && Resolved(env, to) && to.Record? && v.Map?
    requires forall k | k in FieldNames(to.fields) ::
               FieldType(to.fields, k).Some? && Resolved(env, FieldType(to.fields, k).value)
    ensures Fine(env, from, to, v) <==>
            KeysExactly(to.fields, v.entries.Keys)
            && forall k | k in v.entries && k in FieldNames(to.fields) ::
                 Fine(env, EntryOf(env, from, v, k), FieldType(to.fields, k).value, v.entries[k])
  {
    KeptEntries(env, from, v);
  }

  lemma {:induction false} SameField(env: Env, from: Schema, to: Schema, v: Value, r: Value, k: GoString)
    requires EnvOk(env) && Resolved(env, from) && Plain(from) && Resolved(env, to) && r == Normalize(env, from, v)
    requires to.Record? && v.Map? && r.Map? && k in v.entries && k in FieldNames(to.fields)
    requires FieldType(to.fields, k).Some? && Resolved(env, FieldType(to.fields, k).value)
    requires k in MeantFields(env, from, to.fields, v) && k in WrittenFields(env, to.fields, r)
    ensures MeantFields(env, from, to.fields, v)[k] == WrittenFields(env, to.fields, r)[k]
            <==> Fine(env, EntryOf(env, from, v, k), FieldType(to.fields, k).value, v.entries[k])
    decreases if IsNumber(v) then 0 else 1, v, Rank(to), 0, 0
  {
    EntryShape(env, from, v, k);
    SameExact(env, EntryOf(env, from, v, k), FieldType(to.fields, k).value, v.entries[k], r.entries[k]);
  }

  lemma {:induction false} SameRecord(env: Env, from: Schema, to: Schema, v: Value, r: Value)
    requires EnvOk(env) && Resolved(env, from) && Plain(from) && Resolved(env, to) && r == Normalize(env, from, v)
    requires to.Record? && v.Map?
    ensures Same(env, from, to, v, r) <==> Fine(env, from, to, v)
    decreases if IsNumber(v) then 0 else 1, v, Rank(to), 0, 1
  {
    MapShape(env, from, v);
    FieldsResolved(env, to.fields);
    RecordKeys(env, from, to, v, r);
    RecordFine(env, from, to, v);
    var meant, written := MeantFields(env, from, to.fields, v), WrittenFields(env, to.fields, r);
    forall k | k in v.entries && k in FieldNames(to.fields)
      ensures k in meant && k in written
      ensures meant[k] == written[k]
              <==> Fine(env, EntryOf(env, from, v, k), FieldType(to.fields, k).value, v.entries[k])
    {
      SameField(env, from, to, v, r, k);
    }
    MapsEqual(meant, written);
  }

  // ----- maps

  lemma MapKeys(env: Env, from: Schema, to: Schema, v: Value, r: Value)
    requires EnvOk(env) && Resolved(env, from) && Plain(from) && Resolved(env, to) && to.MapOf? && v.Map? && r.Map?
    ensures Same(env, from, to, v, r) <==> MeantEntries(env, from, to.values, v) == WrittenEntries(env, to.values, r)
  {
  }

  lemma MapFine(env: Env, from: Schema, to: Schema, v: Value)
    requires EnvOk(env) && Resolved(env, from) && Plain(from) && Resolved(env, to) && to.MapOf? && v.Map?
    ensures Fine(env, from, to, v) <==>
            forall k | k in v.entries :: Fine(env, EntryOf(env, from, v, k), to.values, v.entries[k])
  {
    KeptEntries(env, from, v);
  }

  lemma {:induction false} SameEntry(env: Env, from: Schema, to: Schema, v: Value, r: Value, k: GoString)
    requires EnvOk(env) && Resolved(env, from) && Plain(from) && Resolved(env, to) && r == Normalize(env, from, v)
    requires to.MapOf? && v.Map? && r.Map? && k in v.entries && k in r.entries
    ensures MeantEntries(env, from, to.values, v)[k] == WrittenEntries(env, to.values, r)[k]
            <==> Fine(env, EntryOf(env, from, v, k), to.values, v.entries[k])
    decreases if IsNumber(v) then 0 else 1, v, Rank(to), 0, 0
  {
    EntryShape(env, from, v, k);
    SameExact(env, EntryOf(env, from, v, k), to.values, v.entries[k], r.entries[k]);
  }

  lemma {:induction false} SameMap(env: Env, from: Schema, to: Schema, v: Value, r: Value)
    requires EnvOk(env) && Resolved(env, from) && Plain(from) && Resolved(env, to) && r == Normalize(env, from, v)
    requires to.MapOf? && v.Map?
    ensures Same(env, from, to, v, r) <==> Fine(env, from, to, v)
    decreases if IsNumber(v) then 0 else 1, v, Rank(to), 0, 1
  {
    MapShape(env, from, v);
    MapKeys(env, from, to, v, r);
    MapFine(env, from, to, v);
    var meant, written := MeantEntries(env, from, to.values, v), WrittenEntries(env, to.values, r);
    forall k | k in v.entries
      ensures meant[k] == written[k] <==> Fine(env, EntryOf(env, from, v, k), to.values, v.entries[k])
    {
      SameEntry(env, from, to, v, r, k);
    }
    MapsEqual(meant, written);
  }

  // ----- arrays

  lemma ArrayItems(env: Env, from: Schema, to: Schema, v: Value, r: Value)
    requires EnvOk(env) && Resolved(env, from) && Plain(from) && Resolved(env, to)
    requires to.Array? && ListAfter(from, v) && r.List?
    ensures Same(env, from, to, v, r) <==> MeantItems(env, from, to.elem, v) == WrittenItems(env, to.elem, r)
  {
  }

  lemma ArrayFine(env: Env, from: Schema, to: Schema, v: Value)
    requires EnvOk(env) && Resolved(env, from) && Plain(from) && Resolved(env, to)
    requires to.Array? && ListAfter(from, v) && Elements(v).Some?
    ensures Fine(env, from, to, v) <==>
            forall i | 0 <= i < |Elements(v).value| ::
              Fine(env, ElementOf(env, from, v, i), to.elem, Elements(v).value[i])
  {
    KeptItems(env, from, v);
  }

  lemma {:induction false} SameItem(env: Env, from: Schema, to: Schema, v: Value, r: Value, i: nat)
    requires EnvOk(env) && Resolved(env, from) && Plain(from) && Resolved(env, to) && r == Normalize(env, from, v)
    requires to.Array? && ListAfter(from, v) && Elements(v).Some? && r.List?
    requires i < |Elements(v).value| == |r.items|
    ensures MeantItems(env, from, to.elem, v)[i] == WrittenItems(env, to.elem, r)[i]
            <==> Fine(env, ElementOf(env, from, v, i), to.elem, Elements(v).value[i])
    decreases if IsNumber(v) then 0 else 1, v, Rank(to), 0, 0
  {
    ItemShape(env, from, v, i);
    ElementSmaller(v, i);
    SameExact(env, ElementOf(env, from, v, i), to.elem, Elements(v).value[i], r.items[i]);
  }

  lemma {:induction false} SameArray(env: Env, from: Schema, to: Schema, v: Value, r: Value)
    requires EnvOk(env) && Resolved(env, from) && Plain(from) && Resolved(env, to) && r == Normalize(env, from, v)
    requires to.Array? && ListAfter(from, v)
    ensures Same(env, from, to, v, r) <==> Fine(env, from, to, v)
    decreases if IsNumber(v) then 0 else 1, v, Rank(to), 0, 1
  {
    ListShape(env, from, v);
    ArrayItems(env, from, to, v, r);
    ArrayFine(env, from, to, v);
    var meant, written := MeantItems(env, from, to.elem, v), WrittenItems(env, to.elem, r);
    forall i | 0 <= i < |meant|
      ensures meant[i] == written[i] <==> Fine(env, ElementOf(env, from, v, i), to.elem, Elements(v).value[i])
    {
      SameItem(env, from, to, v, r, i);
    }
    assert meant == written <==> forall i | 0 <= i < |meant| :: meant[i] == written[i];
  }

  // ----- unions

  lemma WrapperSame(env: Env, from: Schema, to: Schema, v: Value, r: Value, w: Wrapper)
    requires EnvOk(env) && Resolved(env, from) && Plain(from) && Resolved(env, to) && to.Union?
    requires FitsWrapped(env, to.types, r) && ReachesWrapped(env, from, to.types, v)
    requires r.entries.Keys == v.entries.Keys && WrapOf(env, to.types, v.entries.Keys) == Some(w)
    ensures Same(env, from, to, v, r)
            == Same(env, EntryOf(env, from, v, w.key), to.types[w.branch], v.entries[w.key], r.entries[w.key])
  {
  }

  lemma WrapperFine(env: Env, from: Schema, to: Schema, v: Value, w: Wrapper)
    requires EnvOk(env) && Resolved(env, from) && Plain(from) && Resolved(env, to) && to.Union?
    requires ReachesWrapped(env, from, to.types, v) && WrapOf(env, to.types, v.entries.Keys) == Some(w)
    ensures Fine(env, from, to, v)
            == Fine(env, EntryOf(env, from, v, w.key), to.types[w.branch], v.entries[w.key])
  {
    KeptEntries(env, from, v);
  }

  lemma DirectSame(env: Env, from: Schema, to: Schema, v: Value, r: Value, i: nat)
    requires EnvOk(env) && Resolved(env, from) && Plain(from) && Resolved(env, to) && to.Union?
    requires !FitsWrapped(env, to.types, r) && !ReachesWrapped(env, from, to.types, v)
    requires i == DirectBranch(env, to.types, r) == ReachedBranch(env, from, to.types, v)
    ensures i < |to.types| ==> Same(env, from, to, v, r) == Same(env, from, to.types[i], v, r)
    ensures i == |to.types| ==> Same(env, from, to, v, r) == (MeaningOf(r) == MeaningOf(v))
  {
  }

  lemma DirectFields(env: Env, from: Schema, to: Schema, v: Value, i: nat)
    requires EnvOk(env) && Resolved(env, from) && Plain(from) && Resolved(env, to) && to.Union?
    requires !ReachesWrapped(env, from, to.types, v) && i == ReachedBranch(env, from, to.types, v) < |to.types|
    ensures FieldsExactly(env, from, to, v) == FieldsExactly(env, from, to.types[i], v)
  {
  }

  lemma NoBranchFine(env: Env, from: Schema, to: Schema, v: Value)
    requires EnvOk(env) && Resolved(env, from) && Plain(from) && Resolved(env, to) && to.Union?
    requires !ReachesWrapped(env, from, to.types, v) && ReachedBranch(env, from, to.types, v) == |to.types|
    ensures Fine(env, from, to, v) == Kept(env, from, v)
  {
  }

  lemma {:induction false} SameDirect(env: Env, from: Schema, to: Schema, v: Value, r: Value)
    requires EnvOk(env) && Resolved(env, from) && Plain(from) && Resolved(env, to) && r == Normalize(env, from, v)
    requires to.Union? && !FitsWrapped(env, to.types, r) && !ReachesWrapped(env, from, to.types, v)
    ensures Same(env, from, to, v, r) <==> Fine(env, from, to, v)
    decreases if IsNumber(v) then 0 else 1, v, Rank(to), 0, 0
  {
    var i := ReachedBranch(env, from, to.types, v);
    BranchExact(env, from, to.types, v, r);
    DirectSame(env, from, to, v, r, i);
    if i < |to.types| {
      DirectFields(env, from, to, v, i);
      SameExact(env, from, to.types[i], v, r);
    } else {
      NoBranchFine(env, from, to, v);
      NormalizeKeepsMeaning(env, from, v);
    }
  }

  lemma {:induction false} SameWrapped(env: Env, from: Schema, to: Schema, v: Value, r: Value)
    requires EnvOk(env) && Resolved(env, from) && Plain(from) && Resolved(env, to) && r == Normalize(env, from, v)
    requires to.Union? && FitsWrapped(env, to.types, r) && ReachesWrapped(env, from, to.types, v)
    ensures Same(env, from, to, v, r) <==> Fine(env, from, to, v)
    decreases if IsNumber(v) then 0 else 1, v, Rank(to), 0, 0
  {
    MapShape(env, from, v);
    var w := WrapOf(env, to.types, v.entries.Keys).value;
    WrapperSame(env, from, to, v, r, w);
    WrapperFine(env, from, to, v, w);
    EntryShape(env, from, v, w.key);
    SameExact(env, EntryOf(env, from, v, w.key), to.types[w.branch], v.entries[w.key], r.entries[w.key]);
  }

  lemma {:induction false} SameUnion(env: Env, from: Schema, to: Schema, v: Value, r: Value)
    requires EnvOk(env) && Resolved(env, from) && Plain(from) && Resolved(env, to) && r == Normalize(env, from, v)
    requires to.Union?
    ensures Same(env, from, to, v, r) <==> Fine(env, from, to, v)
    decreases if IsNumber(v) then 0 else 1, v, Rank(to), 0, 1
  {
    WrappedExact(env, from, to.types, v, r);
    if ReachesWrapped(env, from, to.types, v) {
      SameWrapped(env, from, to, v, r);
    } else {
      SameDirect(env, from, to, v, r);
    }
  }

  // ----- values without wrappers

  /** Nothing in v, normalized by from and read as to, is read as a wrapper. */
  ghost predicate Wrapless(env: Env, from: Schema, to: Schema, v: Value)
    requires EnvOk(env) && Resolved(env, from) && Plain(from) && Resolved(env, to)
    decreases if IsNumber(v) then 0 else 1, v, Rank(to)
  {
    match to
    case Record(_, fields) =>
      v.Map? ==> forall k | k in v.entries ::
        FieldTypeIn(fields, k);
        FieldType(fields, k).Some? ==>
          Wrapless(env, EntryOf(env, from, v, k), FieldType(fields, k).value, v.entries[k])
    case Array(elem) =>
      ListAfter(from, v) ==> forall i | 0 <= i < |Elements(v).value| ::
        ElementSmaller(v, i);
        Wrapless(env, ElementOf(env, from, v, i), elem, Elements(v).value[i])
    case MapOf(values) =>
      v.Map? ==> forall k | k in v.entries :: Wrapless(env, EntryOf(env, from, v, k), values, v.entries[k])
    case Union(types) =>
      && !ReachesWrapped(env, from, types, v)
      && var i := ReachedBranch(env, from, types, v);
         i < |types| ==> Wrapless(env, from, types[i], v)
    case Ref(target) => Wrapless(env, from, env.named[target], v)
    case _ => true
  }

  /** Such a value means what it holds. */
  lemma {:induction false} WraplessMeant(env: Env, from: Schema, to: Schema, v: Value)
    requires EnvOk(env) && Resolved(env, from) && Plain(from) && Resolved(env, to) && Wrapless(env, from, to, v)
    ensures Meant(env, from, to, v) == MeaningOf(v)
    decreases if IsNumber(v) then 0 else 1, v, Rank(to), 1
  {
    if to.Record? && v.Map? {
      WraplessRecord(env, from, to, v);
    } else if to.MapOf? && v.Map? {
      WraplessMap(env, from, to, v);
    } else if to.Array? && ListAfter(from, v) {
      WraplessArray(env, from, to, v);
    } else if to.Union? {
      var i := ReachedBranch(env, from, to.types, v);
      WraplessDirect(env, from, to, v, i);
      if i < |to.types| {
        WraplessMeant(env, from, to.types[i], v);
      }
    } else if to.Ref? {
      WraplessMeant(env, from, env.named[to.target], v);
    } else {
      OtherWritten(env, from, to, v, Nil);
    }
  }

  lemma WraplessDirect(env: Env, from: Schema, to: Schema, v: Value, i: nat)
    requires EnvOk(env) && Resolved(env, from) && Plain(from) && Resolved(env, to) && Wrapless(env, from, to, v)
    requires to.Union? && i == ReachedBranch(env, from, to.types, v)
    ensures i < |to.types| ==>
              Wrapless(env, from, to.types[i], v) && Meant(env, from, to, v) == Meant(env, from, to.types[i], v)
    ensures i == |to.types| ==> Meant(env, from, to, v) == MeaningOf(v)
  {
  }

  lemma {:induction false} WraplessRecord(env: Env, from: Schema, to: Schema, v: Value)
    requires EnvOk(env) && Resolved(env, from) && Plain(from) && Resolved(env, to) && Wrapless(env, from, to, v)
    requires to.Record? && v.Map?
    ensures Meant(env, from, to, v) == MeaningOf(v)
    decreases if IsNumber(v) then 0 else 1, v, Rank(to), 0
  {
    var meant, own := MeantFields(env, from, to.fields, v), MeaningOf(v).entries;
    forall k | k in v.entries
      ensures meant[k] == own[k]
    {
      FieldTypeIn(to.fields, k);
      if FieldType(to.fields, k).Some? {
        WraplessMeant(env, EntryOf(env, from, v, k), FieldType(to.fields, k).value, v.entries[k]);
      }
    }
    assert meant == own;
  }

  lemma {:induction false} WraplessMap(env: Env, from: Schema, to: Schema, v: Value)
    requires EnvOk(env) && Resolved(env, from) && Plain(from) && Resolved(env, to) && Wrapless(env, from, to, v)
    requires to.MapOf? && v.Map?
    ensures Meant(env, from, to, v) == MeaningOf(v)
    decreases if IsNumber(v) then 0 else 1, v, Rank(to), 0
  {
    var meant, own := MeantEntries(env, from, to.values, v), MeaningOf(v).entries;
    forall k | k in v.entries
      ensures meant[k] == own[k]
    {
      WraplessMeant(env, EntryOf(env, from, v, k), to.values, v.entries[k]);
    }
    assert meant == own;
  }

  lemma {:induction false} WraplessArray(env: Env, from: Schema, to: Schema, v: Value)
    requires EnvOk(env) && Resolved(env, from) && Plain(from) && Resolved(env, to) && Wrapless(env, from, to, v)
    requires to.Array? && ListAfter(from, v)
    ensures Meant(env, from, to, v) == MeaningOf(v)
    decreases if IsNumber(v) then 0 else 1, v, Rank(to), 0
  {
    var xs := Elements(v).value;
    ElementsMeaning(v);
    var meant, own := MeantItems(env, from, to.elem, v), MeaningOf(List(xs)).items;
    forall i | 0 <= i < |xs|
      ensures meant[i] == own[i]
    {
      ElementSmaller(v, i);
      WraplessMeant(env, ElementOf(env, from, v, i), to.elem, xs[i]);
    }
    assert meant == own;
  }

  /** For a value without wrappers, the encoding holds its own content exactly when no
      leaf was too wide and its records have the schema's fields. */
  lemma WrittenKeepsMeaning(env: Env, s: Schema, v: Value)
    requires EnvOk(env) && Resolved(env, s) && Wrapless(env, Settled(env, s, v), s, v)
    ensures Written(env, s, Normalize(env, s, v)) == MeaningOf(v)
            <==> Kept(env, s, v) && FieldsExactly(env, Settled(env, s, v), s, v)
  {
    WrittenExact(env, s, v);
    WraplessMeant(env, Settled(env, s, v), s, v);
  }

  /** What fits as a wrapper is written as what it holds. */
  lemma WrapperWritten(env: Env, s: Schema, v: Value, w: Wrapper)
    requires EnvOk(env) && Resolved(env, s) && s.Union? && FitsWrapped(env, s.types, v)
    requires WrapOf(env, s.types, v.entries.Keys) == Some(w)
    ensures Written(env, s, v) == Written(env, s.types[w.branch], v.entries[w.key])
  {
  }

  lemma WrappedStringWritten(env: Env, s: Schema, v: Value, name: GoString, text: GoString)
    requires EnvOk(env) && s == Union([NullType, StringType]) && v == Map(map[name := Str(text)])
    requires name == BranchName(env, StringType) && name != BranchName(env, NullType)
    ensures Written(env, s, v) == Text(text)
  {
    NullableWrapOf(env, s.types, StringType, name);
    assert v.entries.Keys == {name};
    WrapperWritten(env, s, v, Wrapper(name, 1));
  }
}
