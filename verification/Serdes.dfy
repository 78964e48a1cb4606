/**
 serialize, deserialize and getSubjectName, with every schema parsed afresh
 (pkg/kafka/schema_registry.go:371-411, 686-742, 773-874).
 */
module Serdes {
  import opened Prelude
  import opened AvroValues
  import opened AvroLaws
  import opened AvroTyping
  import opened AvroUnions
  import opened AvroEncoding
  import opened WireFormat

  datatype Parsed = Parsed(env: Env, schema: Schema)

  /** The libraries behind the registry client: Avro, JSON, UTF-8 and lower-casing. */
  datatype Codec = Codec(
    parse: GoString -> Option<Parsed>,
    marshal: (Parsed, Value) -> Result<Bytes>,
    unmarshal: (Parsed, Bytes) -> Result<Value>,
    toJson: Value -> Result<Bytes>,
    fromJson: Bytes -> Result<map<GoString, Value>>,
    validUtf8: Bytes -> bool,
    toLower: GoString -> GoString)

  /** Parsed schemas are well formed. */
  ghost predicate CodecOk(codec: Codec) {
    forall s | codec.parse(s).Some? ::
      EnvOk(codec.parse(s).value.env) && Resolved(codec.parse(s).value.env, codec.parse(s).value.schema)
  }

  const NO_SCHEMA := "schema required"
  const BAD_SCHEMA := "failed to parse Avro schema"

  /** validateJSONRequired: None when data has every required field. */
  function MissingField(data: map<GoString, Value>, required: seq<Value>): Option<GoString> {
    if required == [] then None
    else if required[0].Str? && required[0].s !in data then Some(required[0].s)
    else MissingField(data, required[1..])
  }

  predicate RequiredOk(codec: Codec, data: map<GoString, Value>, schema: GoString) {
    var doc := codec.fromJson(schema);
    doc.Ok? &&
    (Ascii("required") in doc.value && doc.value[Ascii("required")].List? ==>
      MissingField(data, doc.value[Ascii("required")].items).None?)
  }

  function SerializeAvro(codec: Codec, data: Value, schema: SchemaInfo): Result<Bytes>
    requires CodecOk(codec)
  {
    var p := codec.parse(schema.schema);
    if p.None? then Err(BAD_SCHEMA)
    else
      var encoded := codec.marshal(p.value, Normalize(p.value.env, p.value.schema, data));
      if encoded.Err? then Err(encoded.message) else Wrap(Some(schema), encoded.value)
  }

  function Serialize(codec: Codec, data: Value, schemaType: GoString, schema: Option<SchemaInfo>): Result<Bytes>
    requires CodecOk(codec)
  {
    if schemaType == Ascii("STRING") then
      if data.Str? then Ok(data.s) else Err("STRING serialize expects string")
    else if schemaType == Ascii("BYTES") then
      var b := CoerceBytes(data);
      if b.Some? then Ok(b.value) else Err("BYTES serialize expects []byte")
    else if schemaType == Ascii("AVRO") then
      if schema.None? then Err(NO_SCHEMA) else SerializeAvro(codec, data, schema.value)
    else if schemaType == Ascii("JSON") then
      if schema.None? then Err(NO_SCHEMA)
      else if data.Map? && !RequiredOk(codec, data.entries, schema.value.schema) then Err("JSON validation failed")
      else
        var encoded := codec.toJson(data);
        if encoded.Err? then Err(encoded.message) else Wrap(schema, encoded.value)
    else if schemaType == Ascii("PROTOBUF") then Err("Protobuf serdes is not supported")
    else Err("unsupported schema type")
  }

  function DeserializeAvro(codec: Codec, data: Bytes, schema: SchemaInfo): Result<Value> {
    var stripped := Strip(data, Some(schema));
    if stripped.Err? then Err(stripped.message)
    else
      var p := codec.parse(schema.schema);
      if p.None? then Err(BAD_SCHEMA) else codec.unmarshal(p.value, stripped.value)
  }

  function DeserializeJson(codec: Codec, data: Bytes, schema: SchemaInfo): Result<Value> {
    var stripped := Strip(data, Some(schema));
    if stripped.Err? then Err(stripped.message)
    else
      var decoded := codec.fromJson(stripped.value);
      if decoded.Err? then Err(decoded.message)
      else if !RequiredOk(codec, decoded.value, schema.schema) then Err("JSON validation failed")
      else Ok(Map(decoded.value))
  }

  function Deserialize(codec: Codec, data: Bytes, schemaType: GoString, schema: Option<SchemaInfo>): Result<Value> {
    if schemaType == Ascii("STRING") then
      var stripped := Strip(data, schema);
      if stripped.Err? then Err(stripped.message)
      else if !codec.validUtf8(stripped.value) then Err("invalid UTF-8")
      else Ok(Str(stripped.value))
    else if schemaType == Ascii("BYTES") then
      var stripped := Strip(data, schema);
      if stripped.Err? then Err(stripped.message) else Ok(Slice(stripped.value))
    else if schemaType == Ascii("AVRO") then
      if schema.None? then Err(NO_SCHEMA) else DeserializeAvro(codec, data, schema.value)
    else if schemaType == Ascii("JSON") then
      if schema.None? then Err(NO_SCHEMA) else DeserializeJson(codec, data, schema.value)
    else if schemaType == Ascii("PROTOBUF") then Err("Protobuf serdes is not supported")
    else Err("unsupported schema type")
  }

  /** recordFullName. */
  function RecordFullName(codec: Codec, schema: GoString): Result<GoString> {
    if schema == [] then Err("record-name strategy requires a schema")
    else
      var p := codec.parse(schema);
      if p.None? then Err(BAD_SCHEMA)
      else if Named(p.value.schema) then Ok(p.value.schema.name)
      else Err("record-name strategy requires a named Avro schema")
  }

  function SubjectName(codec: Codec, topic: GoString, element: GoString, strategy: GoString, schema: GoString)
    : Result<GoString>
  {
    if strategy == [] || strategy == Ascii("TopicNameStrategy") then
      Ok(topic + Ascii("-") + codec.toLower(element))
    else if strategy == Ascii("RecordNameStrategy") then RecordFullName(codec, schema)
    else if strategy == Ascii("TopicRecordNameStrategy") then
      var name := RecordFullName(codec, schema);
      if name.Err? then name else Ok(topic + Ascii("-") + name.value)
    else Err("unknown subjectNameStrategy")
  }

  // ----- round trips

  lemma TypesDistinct()
    ensures Ascii("STRING") != Ascii("BYTES") && Ascii("STRING") != Ascii("AVRO") && Ascii("STRING") != Ascii("JSON")
    ensures Ascii("BYTES") != Ascii("AVRO") && Ascii("BYTES") != Ascii("JSON") && Ascii("AVRO") != Ascii("JSON")
  {
    assert |Ascii("STRING")| == 6 && |Ascii("BYTES")| == 5;
    assert Ascii("AVRO")[0] == 65 && Ascii("JSON")[0] == 74;
  }

  /** STRING takes strings and sends their bytes; BYTES takes what is byte-like and
      sends the bytes it means; the others need a schema; no other type is known. */
  lemma SerializeTypes(codec: Codec, data: Value, schemaType: GoString, schema: Option<SchemaInfo>)
    requires CodecOk(codec)
    ensures schemaType == Ascii("STRING") ==>
              var r := Serialize(codec, data, schemaType, schema);
              (r.Ok? <==> data.Str?) && (r.Ok? ==> r.value == data.s)
    ensures schemaType == Ascii("BYTES") ==>
              var r := Serialize(codec, data, schemaType, schema);
              (r.Ok? <==> ByteLike(data))
              && (r.Ok? ==> if data.Nil? then r.value == [] else BytesMeaning(r.value) == MeaningOf(data))
    ensures (schemaType == Ascii("AVRO") || schemaType == Ascii("JSON")) && schema.None? ==>
              Serialize(codec, data, schemaType, schema).Err?
    ensures Serialize(codec, data, schemaType, schema).Ok? ==>
              schemaType in {Ascii("STRING"), Ascii("BYTES"), Ascii("AVRO"), Ascii("JSON")}
  {
    TypesDistinct();
    CoerceBytesExact(data);
  }

  /** The same types deserialize: STRING to a string of valid UTF-8 and BYTES to bytes,
      what is left once the envelope is off. */
  lemma DeserializeTypes(codec: Codec, data: Bytes, schemaType: GoString, schema: Option<SchemaInfo>)
    ensures schemaType == Ascii("STRING") ==>
              var r := Deserialize(codec, data, schemaType, schema);
              (r.Ok? <==> Strip(data, schema).Ok? && codec.validUtf8(Strip(data, schema).value))
              && (r.Ok? ==> r.value == Str(Strip(data, schema).value))
    ensures schemaType == Ascii("BYTES") ==>
              var r := Deserialize(codec, data, schemaType, schema);
              (r.Ok? <==> Strip(data, schema).Ok?) && (r.Ok? ==> r.value == Slice(Strip(data, schema).value))
    ensures (schemaType == Ascii("AVRO") || schemaType == Ascii("JSON")) && schema.None? ==>
              Deserialize(codec, data, schemaType, schema).Err?
    ensures Deserialize(codec, data, schemaType, schema).Ok? ==>
              schemaType in {Ascii("STRING"), Ascii("BYTES"), Ascii("AVRO"), Ascii("JSON")}
  {
    TypesDistinct();
  }

  /** BYTES data comes back exactly when no schema ID makes it look enveloped: it
      is never wrapped on the way out, but it is unwrapped on the way in. */
  lemma BytesRoundTrip(codec: Codec, data: Bytes, schema: Option<SchemaInfo>)
    requires CodecOk(codec)
    ensures Serialize(codec, Slice(data), Ascii("BYTES"), schema) == Ok(data)
    ensures Deserialize(codec, data, Ascii("BYTES"), schema) == Ok(Slice(data)) <==>
            schema.None? || schema.value.id == 0 || |data| < 5 || data[0] != 0
  {
    TypesDistinct();
    StripUnwrapped(data, schema);
  }

  /** STRING data comes back under the same condition, if it is valid UTF-8. */
  lemma StringRoundTrip(codec: Codec, text: GoString, schema: Option<SchemaInfo>)
    requires CodecOk(codec)
    ensures Serialize(codec, Str(text), Ascii("STRING"), schema) == Ok(text)
    ensures Deserialize(codec, text, Ascii("STRING"), schema) == Ok(Str(text)) <==>
            codec.validUtf8(text)
            && (schema.None? || schema.value.id == 0 || |text| < 5 || text[0] != 0)
  {
    TypesDistinct();
    StripUnwrapped(text, schema);
  }

  /** Bytes that do not come back: a zero byte and four more, under schema 1. */
  lemma BytesLost(codec: Codec, schema: SchemaInfo)
    requires CodecOk(codec) && schema.id == 1
    ensures Serialize(codec, Slice([0, 0, 0, 0, 1]), Ascii("BYTES"), Some(schema)) == Ok([0, 0, 0, 0, 1])
    ensures Deserialize(codec, [0, 0, 0, 0, 1], Ascii("BYTES"), Some(schema)) == Ok(Slice([]))
  {
    TypesDistinct();
    DecodeExact([0, 0, 0, 0, 1], 1, []);
    assert BigEndian(1) == [0, 0, 0, 1];
  }

  /** A string that does not come back: the same five bytes, all of them ASCII. */
  lemma StringLost(codec: Codec, schema: SchemaInfo)
    requires CodecOk(codec) && schema.id == 1 && codec.validUtf8([])
    ensures Serialize(codec, Str([0, 0, 0, 0, 1]), Ascii("STRING"), Some(schema)) == Ok([0, 0, 0, 0, 1])
    ensures Deserialize(codec, [0, 0, 0, 0, 1], Ascii("STRING"), Some(schema)) == Ok(Str([]))
  {
    TypesDistinct();
    DecodeExact([0, 0, 0, 0, 1], 1, []);
    assert BigEndian(1) == [0, 0, 0, 1];
  }

  /** Data serializes as Avro exactly if the schema parses, the library can encode the
      normalized data, and the schema's ID fits the envelope. */
  lemma AvroSerializeExact(codec: Codec, data: Value, schema: SchemaInfo)
    requires CodecOk(codec)
    ensures Serialize(codec, data, Ascii("AVRO"), Some(schema)).Ok? <==>
            && codec.parse(schema.schema).Some?
            && (var p := codec.parse(schema.schema).value; codec.marshal(p, Normalize(p.env, p.schema, data)).Ok?)
            && 0 <= schema.id <= MAX_UINT32
  {
    TypesDistinct();
    if codec.parse(schema.schema).Some? {
      var p := codec.parse(schema.schema).value;
      var encoded := codec.marshal(p, Normalize(p.env, p.schema, data));
      if encoded.Ok? {
        EnvelopeAbsent(Some(schema), encoded.value);
      }
    }
  }

  /** Bytes deserialize as Avro exactly if the envelope comes off, the schema parses and
      the library decodes what is left; and then to what it decodes. */
  lemma AvroDeserializeExact(codec: Codec, data: Bytes, schema: SchemaInfo, v: Value)
    ensures Deserialize(codec, data, Ascii("AVRO"), Some(schema)) == Ok(v) <==>
            && Strip(data, Some(schema)).Ok?
            && codec.parse(schema.schema).Some?
            && codec.unmarshal(codec.parse(schema.schema).value, Strip(data, Some(schema)).value) == Ok(v)
  {
    TypesDistinct();
  }

  /** Whatever Avro serialization emits, deserialization hands the encoder's own
      output to the decoder: the envelope is transparent. */
  lemma AvroEnvelopeTransparent(codec: Codec, data: Value, schema: SchemaInfo)
    requires CodecOk(codec)
    requires Serialize(codec, data, Ascii("AVRO"), Some(schema)).Ok?
    ensures codec.parse(schema.schema).Some?
    ensures var p := codec.parse(schema.schema).value;
            var encoded := codec.marshal(p, Normalize(p.env, p.schema, data));
            encoded.Ok?
            && Deserialize(codec, Serialize(codec, data, Ascii("AVRO"), Some(schema)).value, Ascii("AVRO"), Some(schema))
               == codec.unmarshal(p, encoded.value)
  {
    TypesDistinct();
    var p := codec.parse(schema.schema).value;
    var encoded := codec.marshal(p, Normalize(p.env, p.schema, data)).value;
    if schema.id == 0 {
      EnvelopeAbsent(Some(schema), encoded);
    } else {
      EnvelopeRoundTrip(schema, schema, encoded);
    }
  }

  /** Whatever the Avro codec encodes of v, if v has the encoder's types, it decodes
      to what the encoding holds. */
  ghost predicate CodecDecodes(codec: Codec, p: Parsed, v: Value)
    requires EnvOk(p.env) && Resolved(p.env, p.schema)
  {
    Encodable(p.env, p.schema, v) && codec.marshal(p, v).Ok? ==>
      var back := codec.unmarshal(p, codec.marshal(p, v).value);
      back.Ok? && MeaningOf(back.value) == Written(p.env, p.schema, v)
  }

  /** Whatever reaches the encoder in its types and serializes is read back as what
      the encoding of the normalized value holds. */
  lemma AvroReads(codec: Codec, data: Value, schema: SchemaInfo, p: Parsed, bytes: Bytes)
    requires CodecOk(codec) && codec.parse(schema.schema) == Some(p)
    requires ReachesEncoder(p.env, p.schema, data)
    requires CodecDecodes(codec, p, Normalize(p.env, p.schema, data))
    requires Serialize(codec, data, Ascii("AVRO"), Some(schema)) == Ok(bytes)
    ensures var back := Deserialize(codec, bytes, Ascii("AVRO"), Some(schema));
            back.Ok? && MeaningOf(back.value) == Written(p.env, p.schema, Normalize(p.env, p.schema, data))
  {
    AvroEnvelopeTransparent(codec, data, schema);
    NormalizeReaches(p.env, p.schema, data);
  }

  /** The Avro round trip of the serializer: a value that reaches the encoder in its
      types, in whatever branches and wrapped or not, always deserializes if it
      serializes; and what comes back is equivalent, wrappers taken off, exactly when
      every leaf fits its schema and every record has exactly the schema's fields. */
  lemma AvroRoundTrip(codec: Codec, data: Value, schema: SchemaInfo, p: Parsed)
    requires CodecOk(codec) && codec.parse(schema.schema) == Some(p)
    requires ReachesEncoder(p.env, p.schema, data)
    requires CodecDecodes(codec, p, Normalize(p.env, p.schema, data))
    requires Serialize(codec, data, Ascii("AVRO"), Some(schema)).Ok?
    ensures var bytes := Serialize(codec, data, Ascii("AVRO"), Some(schema)).value;
            var back := Deserialize(codec, bytes, Ascii("AVRO"), Some(schema));
            var from := Settled(p.env, p.schema, data);
            && back.Ok?
            && (MeaningOf(back.value) == Meant(p.env, from, p.schema, data) <==>
                Kept(p.env, p.schema, data) && FieldsExactly(p.env, from, p.schema, data))
            && (Wrapless(p.env, from, p.schema, data) ==> Meant(p.env, from, p.schema, data) == MeaningOf(data))
  {
    var from := Settled(p.env, p.schema, data);
    AvroReads(codec, data, schema, p, Serialize(codec, data, Ascii("AVRO"), Some(schema)).value);
    WrittenExact(p.env, p.schema, data);
    if Wrapless(p.env, from, p.schema, data) {
      WraplessMeant(p.env, from, p.schema, data);
    }
  }

  /** An integer that does not come back: 2^53 + 1 under `long` is read as 2^53. */
  lemma LongLost(codec: Codec, schema: SchemaInfo, env: Env)
    requires CodecOk(codec) && codec.parse(schema.schema) == Some(Parsed(env, LongType))
    requires CodecDecodes(codec, Parsed(env, LongType), Int(W64, 0x20_0000_0000_0000))
    requires Serialize(codec, Int(W64, 0x20_0000_0000_0001), Ascii("AVRO"), Some(schema)).Ok?
    ensures var data := Int(W64, 0x20_0000_0000_0001);
            var back := Deserialize(codec, Serialize(codec, data, Ascii("AVRO"), Some(schema)).value,
                                    Ascii("AVRO"), Some(schema));
            && back.Ok?
            && MeaningOf(back.value) == AmountOf(0x20_0000_0000_0000)
            && MeaningOf(back.value) != MeaningOf(data)
  {
    var data := Int(W64, 0x20_0000_0000_0001);
    LongIsNotExact(env);
    LongGuardExact(data.n);
    AcceptableReaches(env, LongType, data);
    AvroReads(codec, data, schema, Parsed(env, LongType), Serialize(codec, data, Ascii("AVRO"), Some(schema)).value);
    AmountInjective(0x20_0000_0000_0000, data.n);
  }

  /** A record with one string field a, and its default, if it has one. */
  function OneString(a: GoString, fallback: Option<Value>): Schema {
    Record(Ascii("R"), [Field(a, StringType, fallback)])
  }

  lemma OneStringFields(fields: seq<Field>, a: GoString, fallback: Option<Value>)
    requires |fields| == 1 && fields[0] == Field(a, StringType, fallback)
    ensures FieldNames(fields) == {a}
    ensures FieldType(fields, a) == Some(StringType) && FieldDefault(fields, a) == fallback
    ensures forall k | k != a :: FieldType(fields, k).None?
  {
    assert fields[0].name in FieldNames(fields);
    forall k | k != a
      ensures FieldType(fields, k).None?
    {
      FieldTypeIn(fields, k);
    }
  }

  lemma StringStays(env: Env, v: Value)
    requires EnvOk(env)
    ensures Normalize(env, StringType, v) == v && Written(env, StringType, v) == MeaningOf(v)
  {
  }

  /** Text needs no conversion, nor does what is no field. */
  lemma OneStringNormalized(env: Env, s: Schema, data: Value, a: GoString, fallback: Option<Value>)
    requires EnvOk(env) && s == OneString(a, fallback) && data.Map?
    requires a in data.entries ==> data.entries[a].Str?
    ensures Normalize(env, s, data) == data
  {
    var r := NormalizeFields(env, s.fields, data);
    OneStringFields(s.fields, a, fallback);
    forall k | k in data.entries
      ensures r[k] == data.entries[k]
    {
      StringStays(env, data.entries[k]);
      assert k != a ==> FieldType(s.fields, k).None?;
    }
    assert r == data.entries;
  }

  lemma OneStringAcceptable(env: Env, s: Schema, data: Value, a: GoString, fallback: Option<Value>)
    requires EnvOk(env) && s == OneString(a, fallback) && data.Map?
    requires a in data.entries ==> data.entries[a].Str?
    ensures Acceptable(env, s, data)
  {
    OneStringFields(s.fields, a, fallback);
  }

  lemma OneStringWritten(env: Env, s: Schema, data: Value, a: GoString, fallback: Option<Value>)
    requires EnvOk(env) && s == OneString(a, fallback) && data.Map?
    ensures a in data.entries && data.entries[a].Str? ==>
              Written(env, s, data) == Keyed(map[a := Text(data.entries[a].s)])
    ensures a !in data.entries && fallback.Some? ==>
              Written(env, s, data) == Keyed(map[a := MeaningOf(fallback.value)])
  {
    OneStringFields(s.fields, a, fallback);
    var r := WrittenFields(env, s.fields, data);
    if a in data.entries {
      StringStays(env, data.entries[a]);
    }
    assert a in data.entries && data.entries[a].Str? ==> r == map[a := Text(data.entries[a].s)];
    assert a !in data.entries && fallback.Some? ==> r == map[a := MeaningOf(fallback.value)];
  }

  /** A codec that, as Avro does, writes nothing of such a record but its field. */
  function FieldCodec(codec: Codec, a: GoString): Codec {
    codec.(marshal := (p: Parsed, v: Value) =>
             if v.Map? && a in v.entries && v.entries[a].Str? then Ok(v.entries[a].s) else Err("missing field"),
           unmarshal := (p: Parsed, bytes: Bytes) => Ok(Map(map[a := Str(bytes)])))
  }

  /** It decodes what the encoding of any value holds, unknown keys or not, which is
      all that is asked of a codec here. */
  lemma FieldCodecDecodes(codec: Codec, a: GoString, p: Parsed, v: Value)
    requires EnvOk(p.env) && p.schema == OneString(a, None)
    ensures CodecDecodes(FieldCodec(codec, a), p, v)
  {
    if v.Map? && a in v.entries && v.entries[a].Str? {
      OneStringWritten(p.env, p.schema, v, a, None);
      var back := Map(map[a := Str(v.entries[a].s)]);
      assert MeaningOf(back).entries == map[a := Text(v.entries[a].s)];
    }
  }

  /** A key that does not come back: x is no field of the record, so it is not written. */
  lemma UnknownKeyLost(
    codec: Codec, schema: SchemaInfo, p: Parsed, data: Value, bytes: Bytes,
    a: GoString, x: GoString, one: GoString, two: GoString)
    requires CodecOk(codec) && codec.parse(schema.schema) == Some(p) && p.schema == OneString(a, None)
    requires a != x && data == Map(map[a := Str(one), x := Str(two)]) && CodecDecodes(codec, p, data)
    requires Serialize(codec, data, Ascii("AVRO"), Some(schema)) == Ok(bytes)
    ensures var back := Deserialize(codec, bytes, Ascii("AVRO"), Some(schema));
            back.Ok? && MeaningOf(back.value) == Keyed(map[a := Text(one)])
    ensures x in MeaningOf(data).entries
  {
    OneStringNormalized(p.env, p.schema, data, a, None);
    OneStringAcceptable(p.env, p.schema, data, a, None);
    OneStringWritten(p.env, p.schema, data, a, None);
    AcceptableReaches(p.env, p.schema, data);
    AvroReads(codec, data, schema, p, bytes);
  }

  /** A key that appears: a is left out, and its default is written. */
  lemma DefaultAppears(
    codec: Codec, schema: SchemaInfo, p: Parsed, data: Value, bytes: Bytes, a: GoString, text: GoString)
    requires CodecOk(codec) && codec.parse(schema.schema) == Some(p) && p.schema == OneString(a, Some(Str(text)))
    requires data == Map(map[]) && CodecDecodes(codec, p, data)
    requires Serialize(codec, data, Ascii("AVRO"), Some(schema)) == Ok(bytes)
    ensures var back := Deserialize(codec, bytes, Ascii("AVRO"), Some(schema));
            back.Ok? && MeaningOf(back.value) == Keyed(map[a := Text(text)])
  {
    OneStringNormalized(p.env, p.schema, data, a, Some(Str(text)));
    OneStringAcceptable(p.env, p.schema, data, a, Some(Str(text)));
    OneStringWritten(p.env, p.schema, data, a, Some(Str(text)));
    AcceptableReaches(p.env, p.schema, data);
    AvroReads(codec, data, schema, p, bytes);
  }

  /** A wrapper comes back as what it holds. */
  lemma WrappedStringRead(codec: Codec, schema: SchemaInfo, p: Parsed, data: Value, bytes: Bytes, text: GoString)
    requires CodecOk(codec) && codec.parse(schema.schema) == Some(p) && p.schema == Union([NullType, StringType])
    requires data == Map(map[Ascii("string") := Str(text)]) && CodecDecodes(codec, p, data)
    requires Serialize(codec, data, Ascii("AVRO"), Some(schema)) == Ok(bytes)
    ensures var back := Deserialize(codec, bytes, Ascii("AVRO"), Some(schema));
            back.Ok? && MeaningOf(back.value) == Text(text)
  {
    WrappedStringReaches(p.env, p.schema, text);
    assert |Ascii("string")| == 6 && |Ascii("null")| == 4;
    WrappedStringWritten(p.env, p.schema, data, Ascii("string"), text);
    AvroReads(codec, data, schema, p, bytes);
  }

  /** A missing field is reported exactly when a named required field is absent. */
  lemma {:induction false} MissingFieldExact(data: map<GoString, Value>, required: seq<Value>)
    ensures MissingField(data, required).None? <==>
            forall i | 0 <= i < |required| :: required[i].Str? ==> required[i].s in data
    ensures MissingField(data, required).Some? ==>
              MissingField(data, required).value !in data && Str(MissingField(data, required).value) in required
  {
    if required != [] {
      MissingFieldExact(data, required[1..]);
      assert forall i | 1 <= i < |required| :: required[i] == required[1..][i - 1];
      assert required == [required[0]] + required[1..];
    }
  }

  /** The schema document decodes, and if its "required" entry is a list, every string
      in it is one of these keys. */
  ghost predicate HasRequired(codec: Codec, schema: GoString, keys: set<GoString>) {
    var doc := codec.fromJson(schema);
    doc.Ok? &&
    (Ascii("required") in doc.value && doc.value[Ascii("required")].List? ==>
       var required := doc.value[Ascii("required")].items;
       forall i | 0 <= i < |required| :: required[i].Str? ==> required[i].s in keys)
  }

  lemma RequiredExact(codec: Codec, data: map<GoString, Value>, schema: GoString)
    ensures RequiredOk(codec, data, schema) <==> HasRequired(codec, schema, data.Keys)
  {
    var doc := codec.fromJson(schema);
    if doc.Ok? && Ascii("required") in doc.value && doc.value[Ascii("required")].List? {
      MissingFieldExact(data, doc.value[Ascii("required")].items);
    }
  }

  /** An object serializes exactly if it has the required fields, the library can
      encode it, and the schema's ID fits the envelope; other data need not have any. */
  lemma JsonSerializeExact(codec: Codec, data: Value, schema: SchemaInfo)
    requires CodecOk(codec)
    ensures Serialize(codec, data, Ascii("JSON"), Some(schema)).Ok? <==>
            && (data.Map? ==> HasRequired(codec, schema.schema, data.entries.Keys))
            && codec.toJson(data).Ok?
            && 0 <= schema.id <= MAX_UINT32
  {
    TypesDistinct();
    if data.Map? {
      RequiredExact(codec, data.entries, schema.schema);
    }
    if codec.toJson(data).Ok? {
      EnvelopeAbsent(Some(schema), codec.toJson(data).value);
    }
  }

  /** Bytes deserialize exactly if the envelope comes off, the library decodes an
      object, and that has the required fields; and then to that object. */
  lemma JsonDeserializeExact(codec: Codec, data: Bytes, schema: SchemaInfo)
    ensures Deserialize(codec, data, Ascii("JSON"), Some(schema)).Ok? <==>
            && Strip(data, Some(schema)).Ok?
            && codec.fromJson(Strip(data, Some(schema)).value).Ok?
            && HasRequired(codec, schema.schema, codec.fromJson(Strip(data, Some(schema)).value).value.Keys)
    ensures Deserialize(codec, data, Ascii("JSON"), Some(schema)).Ok? ==>
              Deserialize(codec, data, Ascii("JSON"), Some(schema))
              == Ok(Map(codec.fromJson(Strip(data, Some(schema)).value).value))
  {
    TypesDistinct();
    var stripped := Strip(data, Some(schema));
    if stripped.Ok? && codec.fromJson(stripped.value).Ok? {
      RequiredExact(codec, codec.fromJson(stripped.value).value, schema.schema);
    }
  }

  /** An object without a required field is refused on the way out and on the way in. */
  lemma EmptyObjectRefused(
    codec: Codec, schema: SchemaInfo, doc: map<GoString, Value>, field: GoString, bytes: Bytes)
    requires CodecOk(codec) && codec.fromJson(schema.schema) == Ok(doc)
    requires Ascii("required") in doc && doc[Ascii("required")] == List([Str(field)])
    requires schema.id == 0 && codec.fromJson(bytes) == Ok(map[])
    ensures Serialize(codec, Map(map[]), Ascii("JSON"), Some(schema)).Err?
    ensures Deserialize(codec, bytes, Ascii("JSON"), Some(schema)).Err?
  {
    var required := doc[Ascii("required")].items;
    assert required[0].Str? && required[0].s == field;
    JsonSerializeExact(codec, Map(map[]), schema);
    JsonDeserializeExact(codec, bytes, schema);
    EnvelopeAbsent(Some(schema), bytes);
  }

  /** What the JSON library decodes into an object map: an object it encoded, with its
      keys, and null, as no entries; an array, a string, a number or a truth value not.
      An ArrayBuffer is a Go struct, and encodes as the library sees fit. */
  ghost predicate JsonDecodes(codec: Codec, v: Value) {
    codec.toJson(v).Ok? ==>
      var back := codec.fromJson(codec.toJson(v).value);
      && (v.Map? ==> back.Ok? && back.value.Keys == v.entries.Keys)
      && (v.Nil? ==> back == Ok(map[]))
      && (back.Ok? ==> v.Map? || v.Nil? || v.ArrayBuffer?)
  }

  /** What was serialized as JSON is deserialized as the library decodes it, if that is
      an object with the required fields. */
  lemma JsonEnvelopeTransparent(codec: Codec, data: Value, schema: SchemaInfo, bytes: Bytes)
    requires CodecOk(codec) && Serialize(codec, data, Ascii("JSON"), Some(schema)) == Ok(bytes)
    ensures codec.toJson(data).Ok?
    ensures var decoded := codec.fromJson(codec.toJson(data).value);
            var back := Deserialize(codec, bytes, Ascii("JSON"), Some(schema));
            && (back.Ok? <==> decoded.Ok? && HasRequired(codec, schema.schema, decoded.value.Keys))
            && (back.Ok? ==> back == Ok(Map(decoded.value)))
  {
    TypesDistinct();
    var encoded := codec.toJson(data).value;
    EnvelopeAbsent(Some(schema), encoded);
    if schema.id != 0 {
      EnvelopeRoundTrip(schema, schema, encoded);
    }
    JsonDeserializeExact(codec, bytes, schema);
  }

  /** The JSON round trip: whatever serializes comes back exactly if it is an object,
      which had the required fields on the way out, or null where no field is
      required; anything else serializes unchecked and is refused. */
  lemma JsonRoundTrip(codec: Codec, data: Value, schema: SchemaInfo, bytes: Bytes)
    requires CodecOk(codec) && JsonDecodes(codec, data)
    requires Serialize(codec, data, Ascii("JSON"), Some(schema)) == Ok(bytes)
    ensures codec.toJson(data).Ok?
    ensures var decoded := codec.fromJson(codec.toJson(data).value);
            var back := Deserialize(codec, bytes, Ascii("JSON"), Some(schema));
            && (back.Ok? <==>
                || data.Map?
                || (data.Nil? && HasRequired(codec, schema.schema, {}))
                || (data.ArrayBuffer? && decoded.Ok? && HasRequired(codec, schema.schema, decoded.value.Keys)))
            && (back.Ok? ==> back == Ok(Map(decoded.value)))
            && (data.Map? ==> decoded.value.Keys == data.entries.Keys)
  {
    JsonEnvelopeTransparent(codec, data, schema, bytes);
    JsonSerializeExact(codec, data, schema);
    if data.Nil? {
      var none: map<GoString, Value> := map[];
      assert none.Keys == {};
    }
  }

  /** Data that does not come back: [1] is not checked, serializes, and is refused. */
  lemma JsonListLost(codec: Codec, data: Value, schema: SchemaInfo)
    requires CodecOk(codec) && data == List([Int(W64, 1)]) && JsonDecodes(codec, data)
    requires codec.toJson(data).Ok? && 0 <= schema.id <= MAX_UINT32
    ensures Serialize(codec, data, Ascii("JSON"), Some(schema)).Ok?
    ensures Deserialize(codec, Serialize(codec, data, Ascii("JSON"), Some(schema)).value,
                        Ascii("JSON"), Some(schema)).Err?
  {
    JsonSerializeExact(codec, data, schema);
    JsonRoundTrip(codec, data, schema, Serialize(codec, data, Ascii("JSON"), Some(schema)).value);
  }

  // ----- subject names

  lemma StrategiesDistinct()
    ensures Ascii("TopicNameStrategy") != Ascii("RecordNameStrategy")
    ensures Ascii("TopicNameStrategy") != Ascii("TopicRecordNameStrategy")
    ensures Ascii("RecordNameStrategy") != Ascii("TopicRecordNameStrategy")
    ensures Ascii("TopicNameStrategy") != [] && Ascii("RecordNameStrategy") != []
    ensures Ascii("TopicRecordNameStrategy") != []
  {
    assert |Ascii("TopicNameStrategy")| == 17;
    assert |Ascii("RecordNameStrategy")| == 18 && |Ascii("TopicRecordNameStrategy")| == 23;
  }

  /** A schema has a record name exactly if it parses to a record, an enum or a fixed
      type, and then it is that type's. */
  lemma RecordNameExact(codec: Codec, schema: GoString, name: GoString)
    ensures RecordFullName(codec, schema) == Ok(name) <==>
            schema != [] && codec.parse(schema).Some? &&
            match codec.parse(schema).value.schema
            case Record(n, _) => n == name
            case Enum(n) => n == name
            case Fixed(n, _) => n == name
            case _ => false
  {
  }

  /** The topic strategy, which no strategy stands for, names topic and element; the
      record strategy the record; the last topic and record; no other is known. */
  lemma SubjectNameExact(
    codec: Codec, topic: GoString, element: GoString, strategy: GoString, schema: GoString, name: GoString)
    ensures SubjectName(codec, topic, element, strategy, schema) == Ok(name) <==>
            if strategy == [] || strategy == Ascii("TopicNameStrategy") then
              name == topic + Ascii("-") + codec.toLower(element)
            else if strategy == Ascii("RecordNameStrategy") then RecordFullName(codec, schema) == Ok(name)
            else
              strategy == Ascii("TopicRecordNameStrategy")
              && exists record :: RecordFullName(codec, schema) == Ok(record) && name == topic + Ascii("-") + record
  {
    StrategiesDistinct();
    var record := RecordFullName(codec, schema);
    if record.Ok? {
      assert RecordFullName(codec, schema) == Ok(record.value);
    }
  }
}
