/**
 Concurrent serialize, deserialize and getSubjectName calls on one client: each may
 parse one schema, and nothing else they do is shared
 (pkg/kafka/schema_registry.go:175-196, 370-411, 686-742, 773-848).
 */
module SerdesRaces {
  import opened Prelude
  import opened AvroValues
  import opened WireFormat
  import opened Serdes
  import opened ParseRaces

  datatype Request =
    | Serializing(data: Value, schemaType: GoString, schema: Option<SchemaInfo>)
    | Deserializing(bytes: Bytes, schemaType: GoString, schema: Option<SchemaInfo>)
    | Naming(topic: GoString, element: GoString, strategy: GoString, text: GoString)

  datatype Answer = Encoded(b: Result<Bytes>) | Decoded(v: Result<Value>) | Subject(s: Result<GoString>)

  /** A parsed schema the serializer can work with. */
  type Usable = p: Parsed | EnvOk(p.env) && Resolved(p.env, p.schema)
    witness Parsed(Env(map[], MIN_INT64), NullType)

  /** The answer that parsing afresh yields. */
  function Afresh(codec: Codec, r: Request): Answer
    requires CodecOk(codec)
  {
    match r
    case Serializing(data, schemaType, schema) => Encoded(Serialize(codec, data, schemaType, schema))
    case Deserializing(bytes, schemaType, schema) => Decoded(Deserialize(codec, bytes, schemaType, schema))
    case Naming(topic, element, strategy, text) => Subject(SubjectName(codec, topic, element, strategy, text))
  }

  predicate ByRecord(strategy: GoString) {
    strategy == Ascii("RecordNameStrategy") || strategy == Ascii("TopicRecordNameStrategy")
  }

  /** The schema a request hands to parsedAvro, if it gets that far. */
  function KeyOf(r: Request): Option<GoString> {
    match r
    case Serializing(_, schemaType, schema) =>
      if schemaType == Ascii("AVRO") && schema.Some? then Some(schema.value.schema) else None
    case Deserializing(bytes, schemaType, schema) =>
      if schemaType == Ascii("AVRO") && schema.Some? && Strip(bytes, schema).Ok? then Some(schema.value.schema)
      else None
    case Naming(_, _, strategy, text) => if ByRecord(strategy) && text != [] then Some(text) else None
  }

  /** A codec in which parsing has this result, whatever is parsed. */
  function Answering(codec: Codec, parsed: Option<Usable>): (c: Codec)
    ensures CodecOk(c)
  {
    codec.(parse := (s: GoString) => parsed)
  }

  /** The rest of a request, once its schema is parsed. */
  function Finishing(codec: Codec, r: Request, parsed: Option<Usable>): Answer {
    Afresh(Answering(codec, parsed), r)
  }

  function ServiceOf(codec: Codec): Service<Request, Usable, Answer>
    requires CodecOk(codec)
  {
    var parse: GoString -> Option<Usable> := (s: GoString) => codec.parse(s);
    Service(parse, KeyOf, (r: Request, parsed: Option<Usable>) => Finishing(codec, r, parsed))
  }

  lemma OtherStrategies()
    ensures !ByRecord([]) && !ByRecord(Ascii("TopicNameStrategy"))
  {
    assert |Ascii("TopicNameStrategy")| == 17;
    assert |Ascii("RecordNameStrategy")| == 18 && |Ascii("TopicRecordNameStrategy")| == 23;
  }

  /** A request parses nothing but its key: with that one result it goes on as if it
      could parse at will. */
  lemma ParsesItsKeyOnly(codec: Codec, r: Request, parsed: Option<Usable>)
    requires CodecOk(codec)
    requires KeyOf(r).Some? ==> parsed == codec.parse(KeyOf(r).value)
    ensures Finishing(codec, r, parsed) == Afresh(codec, r)
  {
    TypesDistinct();
    OtherStrategies();
  }

  /** In every interleaving of any callers, with the parse cache or without, every
      answer is the one that parsing afresh yields. */
  lemma ServedAfresh(
    codec: Codec, cached: bool, steps: seq<Step<Request>>, states: seq<State<Request, Usable, Answer>>, i: nat, j: nat)
    requires CodecOk(codec) && IsRun(ServiceOf(codec), cached, steps, states)
    requires i < |states| && j < |states[i].log|
    ensures var r, a := states[i].log[j].0, states[i].log[j].1;
            match r
            case Serializing(data, schemaType, schema) => a == Encoded(Serialize(codec, data, schemaType, schema))
            case Deserializing(bytes, schemaType, schema) => a == Decoded(Deserialize(codec, bytes, schemaType, schema))
            case Naming(topic, element, strategy, text) =>
              a == Subject(SubjectName(codec, topic, element, strategy, text))
  {
    AlwaysTransparent(ServiceOf(codec), cached, steps, states, i);
    var r := states[i].log[j].0;
    var k := KeyOf(r);
    ParsesItsKeyOnly(codec, r, if k.Some? then codec.parse(k.value) else None);
  }
}
