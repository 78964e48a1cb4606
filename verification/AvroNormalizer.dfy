/** The normalizer's loops, proved against AvroValues.Normalize
    (pkg/kafka/schema_registry.go:456-602). */
module AvroNormalizer {
  import opened Prelude
  import opened AvroValues

  /** coerceBytes; a value that is not byte-like is not an error. */
  method CoerceToBytes(v: Value) returns (r: Option<Bytes>)
    ensures r == CoerceBytes(v)
  {
    match v
    case Nil => return Some([]);
    case Slice(bs) => return Some(bs);
    case ArrayBuffer(bs) => return Some(bs);
    case ByteArray(_) => r := CoerceElements(Elements(v).value);
      CoerceByteValues(v.bytes);
    case List(items) => r := CoerceElements(items);
    case _ => return None;
  }

  lemma {:induction false} CoerceByteValues(bs: Bytes)
    ensures CoerceAll(ByteValues(bs)) == Some(bs)
  {
    if bs != [] {
      var init := bs[..|bs| - 1];
      CoerceByteValues(init);
      assert ByteValues(bs)[..|bs| - 1] == ByteValues(init);
      assert bs == init + [bs[|bs| - 1]];
    }
  }

  method CoerceElements(items: seq<Value>) returns (r: Option<Bytes>)
    ensures r == CoerceAll(items)
  {
    var out: Bytes := [];
    for i := 0 to |items|
      invariant CoerceAll(items[..i]) == Some(out)
    {
      assert items[..i + 1][..i] == items[..i];
      var b := CoerceByte(items[i]);
      if b.None? {
        CoerceAllFails(items, i);
        return None;
      }
      out := out + [b.value];
    }
    assert items[..|items|] == items;
    return Some(out);
  }

  lemma {:induction false} CoerceAllFails(items: seq<Value>, i: nat)
    requires i < |items| && CoerceByte(items[i]).None?
    ensures CoerceAll(items).None?
  {
    if i < |items| - 1 {
      CoerceAllFails(items[..|items| - 1], i);
    }
  }

  /** No value makes the normalizer fail, and the result is Normalize's. */
  method NormalizeAvroValue(env: Env, s: Schema, data: Value) returns (r: Result<Value>)
    requires EnvOk(env) && Resolved(env, s)
    ensures r == Ok(Normalize(env, s, data))
    decreases if IsNumber(data) then 0 else 1, data, Rank(s)
  {
    match s
    case Record(_, fields) =>
      r := NormalizeAvroRecord(env, s, data);
    case Array(elem) =>
      var xs := Elements(data);
      if xs.None? {
        return Ok(data);
      }
      var out: seq<Value> := [];
      for i := 0 to |xs.value|
        invariant |out| == i
        invariant forall j | 0 <= j < i :: out[j] == Normalize(env, s, data).items[j]
      {
        ElementSmaller(data, i);
        var normalized := NormalizeAvroValue(env, elem, xs.value[i]);
        if normalized.Err? {
          return normalized;
        }
        out := out + [normalized.value];
      }
      assert out == Normalize(env, s, data).items;
      return Ok(List(out));
    case MapOf(values) =>
      if !data.Map? {
        return Ok(data);
      }
      var out: map<GoString, Value> := map[];
      var todo := data.entries.Keys;
      while todo != {}
        invariant todo <= data.entries.Keys && out.Keys == data.entries.Keys - todo
        invariant forall k | k in out :: out[k] == Normalize(env, values, data.entries[k])
        decreases |todo|
      {
        var k :| k in todo;
        var normalized := NormalizeAvroValue(env, values, data.entries[k]);
        if normalized.Err? {
          return normalized;
        }
        out := out[k := normalized.value];
        todo := todo - {k};
      }
      assert out == Normalize(env, s, data).entries;
      return Ok(Map(out));
    case Union(types) =>
      if data.Nil? {
        return Ok(data);
      }
      for i := 0 to |types|
        invariant FirstNonNull(types) == FirstNonNull(types[i..])
      {
        if types[i].NullType? {
          continue;
        }
        r := NormalizeAvroValue(env, types[i], data);
        return;
      }
      return Ok(data);
    case Ref(target) =>
      r := NormalizeAvroValue(env, env.named[target], data);
    case _ =>
      return Ok(NormalizePrimitive(env, s, data));
  }

  /** What the fields seen so far make of entry k. */
  ghost predicate EntryDone(env: Env, fields: seq<Field>, before: Value, k: GoString, after: Value)
    requires EnvOk(env) && forall i | 0 <= i < |fields| :: Resolved(env, fields[i].typ)
  {
    FieldTypeIn(fields, k);
    after == if FieldType(fields, k).Some? then Normalize(env, FieldType(fields, k).value, before) else before
  }

  lemma FieldTypeNext(fields: seq<Field>, i: nat, k: GoString)
    requires i < |fields|
    ensures FieldType(fields[..i + 1], k)
            == if k == fields[i].name then Some(fields[i].typ) else FieldType(fields[..i], k)
  {
    assert fields[..i + 1][..i] == fields[..i];
  }

  method NormalizeAvroRecord(env: Env, s: Schema, data: Value) returns (r: Result<Value>)
    requires EnvOk(env) && Resolved(env, s) && s.Record?
    ensures r == Ok(Normalize(env, s, data))
    decreases if IsNumber(data) then 0 else 1, data, 0, 0
  {
    if !data.Map? {
      return Ok(data);
    }
    var fields := s.fields;
    var out := data.entries;
    for i := 0 to |fields|
      invariant out.Keys == data.entries.Keys
      invariant forall k | k in out :: EntryDone(env, fields[..i], data.entries[k], k, out[k])
    {
      var field := fields[i];
      if field.name in data.entries {
        var normalized := NormalizeAvroValue(env, field.typ, data.entries[field.name]);
        if normalized.Err? {
          return normalized;
        }
        out := out[field.name := normalized.value];
      }
      forall k | k in out
        ensures EntryDone(env, fields[..i + 1], data.entries[k], k, out[k])
      {
        FieldTypeNext(fields, i, k);
      }
    }
    assert fields[..|fields|] == fields;
    assert out == NormalizeFields(env, fields, data);
    return Ok(Map(out));
  }
}
