/**
 The registry client: its two caches, and sessions of script calls against it
 (pkg/kafka/schema_registry.go:76-88, 166-290, 346-372).
 */
module SchemaRegistry {
  import opened Prelude
  import opened WireFormat
  import opened CacheKey
  import Serdes
  import AvroValues
  import AvroNormalizer

  /** What the registry answers to a GET, should it be asked. */
  datatype Reply = Refused(message: string) | Found(info: SchemaInfo)

  /** What it answers to a POST. */
  datatype Registration = Rejected(message: string) | Registered(id: int, version: Option<int>)

  /** A schema object, as a script holds it. */
  class Schema {
    var id: int
    var subject: GoString
    var version: int
    var schema: GoString
    var schemaType: GoString

    constructor (info: SchemaInfo)
      ensures Info() == info
    {
      id, subject, version := info.id, info.subject, info.version;
      schema, schemaType := info.schema, info.schemaType;
    }

    function Info(): SchemaInfo
      reads this
    {
      SchemaInfo(id, subject, version, schema, schemaType)
    }

    /** A script writing the fields of an object it was given. */
    method Set(info: SchemaInfo)
      modifies this
      ensures Info() == info
    {
      id, subject, version := info.id, info.subject, info.version;
      schema, schemaType := info.schema, info.schemaType;
    }
  }

  function InfoOf(schema: Schema?): Option<SchemaInfo>
    reads schema
  {
    if schema == null then None else Some(schema.Info())
  }

  const NEEDS_REGISTRY := "standalone mode not supported"
  const NEEDS_SUBJECT := "requires schema with subject"

  // ----- the client, on values

  /** configured and enableCaching are fixed at construction; cache holds the
      contents of the cached schemas. */
  datatype Client = Client(configured: bool, enableCaching: bool, cache: map<GoString, SchemaInfo>)

  /** asked is the path of the request made, if one was. */
  datatype Lookup = Lookup(client: Client, result: Result<SchemaInfo>, asked: Option<GoString>)

  function RequestPath(subject: GoString, version: Option<int>): GoString {
    if version.None? then Ascii("/subjects/") + subject + Ascii("/versions/latest")
    else Ascii("/subjects/") + subject + Ascii("/versions/") + Itoa(version.value)
  }

  function GetSpec(c: Client, subject: GoString, version: Option<int>, reply: Reply): Lookup {
    var key, path := Key(subject, version), RequestPath(subject, version);
    if !c.configured then Lookup(c, Err(NEEDS_REGISTRY), None)
    else if c.enableCaching && key in c.cache then Lookup(c, Ok(c.cache[key]), None)
    else if reply.Refused? then Lookup(c, Err(reply.message), Some(path))
    else Lookup(if c.enableCaching then c.(cache := c.cache[key := reply.info]) else c, Ok(reply.info), Some(path))
  }

  /** GetSchema: the version asked for, when positive. */
  function Wanted(info: SchemaInfo): Option<int> {
    if info.version > 0 then Some(info.version) else None
  }

  function GetSchemaSpec(c: Client, param: Option<SchemaInfo>, reply: Reply): Lookup {
    if !c.configured then Lookup(c, Err(NEEDS_REGISTRY), None)
    else if param.None? || param.value.subject == [] then Lookup(c, Err(NEEDS_SUBJECT), None)
    else GetSpec(c, param.value.subject, Wanted(param.value), reply)
  }

  function CreateSpec(c: Client, param: Option<SchemaInfo>, reply: Registration): Result<SchemaInfo> {
    if !c.configured then Err(NEEDS_REGISTRY)
    else if param.None? || param.value.subject == [] || param.value.schema == [] || param.value.schemaType == [] then
      Err(NEEDS_SUBJECT)
    else
      match reply
      case Rejected(message) => Err(message)
      case Registered(id, version) =>
        Ok(param.value.(id := id, version := if version.Some? then version.value else 0))
  }

  /** The request asks for the version of the parameter when that is positive, and for
      the latest otherwise. */
  lemma AskedVersion(c: Client, param: SchemaInfo, reply: Reply)
    ensures var path := GetSchemaSpec(c, Some(param), reply).asked;
            path.Some? ==>
              path.value == Ascii("/subjects/") + param.subject + Ascii("/versions/")
                            + (if param.version >= 1 then Itoa(param.version) else Ascii("latest"))
    ensures Wanted(param) == if param.version <= 0 then None else Some(param.version)
  {
    assert Ascii("/versions/latest") == Ascii("/versions/") + Ascii("latest");
  }

  /** A lookup is refused at once, exactly without a registry or without a subject. */
  lemma LookupRefused(c: Client, param: Option<SchemaInfo>, reply: Reply)
    ensures !c.configured ==> GetSchemaSpec(c, param, reply) == Lookup(c, Err(NEEDS_REGISTRY), None)
    ensures c.configured && (param.None? || |param.value.subject| == 0) ==>
              GetSchemaSpec(c, param, reply) == Lookup(c, Err(NEEDS_SUBJECT), None)
    ensures c.configured && param.Some? && |param.value.subject| > 0 ==>
              var l := GetSchemaSpec(c, param, reply);
              l.asked.Some? || l.result.Ok?
  {
  }

  /** Registering needs a registry, a subject, a schema and a type; what comes back is
      the schema given, with the ID the registry answers and its version, 0 if it
      does not say. */
  lemma RegisteredExact(c: Client, param: Option<SchemaInfo>, reply: Registration)
    ensures CreateSpec(c, param, reply).Ok? <==>
            c.configured && reply.Registered?
            && param.Some? && |param.value.subject| > 0 && |param.value.schema| > 0 && |param.value.schemaType| > 0
    ensures CreateSpec(c, param, reply).Ok? ==>
              var info := CreateSpec(c, param, reply).value;
              info.id == reply.id && info.version == (match reply.version case Some(v) => v case None => 0)
              && info.subject == param.value.subject && info.schema == param.value.schema
              && info.schemaType == param.value.schemaType
    ensures CreateSpec(c, param, reply).Err? ==>
              CreateSpec(c, param, reply).message
              == if !c.configured then NEEDS_REGISTRY
                 else if param.Some? && |param.value.subject| > 0 && |param.value.schema| > 0 && |param.value.schemaType| > 0
                 then reply.message
                 else NEEDS_SUBJECT
  {
  }

  // ----- the client, as an object

  class SchemaRegistry {
    const configured: bool
    const enableCaching: bool
    const codec: Serdes.Codec
    var schemaCache: map<GoString, Schema>
    var avroCache: Option<map<GoString, Serdes.Parsed>>

    /** Cached schema objects are all different; every parsed entry is what parsing
        its own key yields. */
    ghost predicate Valid()
      reads this
    {
      && Serdes.CodecOk(codec)
      && (forall k, j | k in schemaCache && j in schemaCache && k != j :: schemaCache[k] != schemaCache[j])
      && (avroCache.Some? ==> forall k | k in avroCache.value :: codec.parse(k) == Some(avroCache.value[k]))
    }

    ghost function Cached(): set<Schema>
      reads this
    {
      schemaCache.Values
    }

    ghost function View(): Client
      reads this, Cached()
    {
      Client(configured, enableCaching, map k | k in schemaCache :: schemaCache[k].Info())
    }

    /** NewSchemaRegistry, once the registry answered; withAvroCache is always true
        there, and false gives a client that parses every time. */
    constructor (configured: bool, enableCaching: bool, codec: Serdes.Codec, withAvroCache: bool)
      requires Serdes.CodecOk(codec)
      ensures Valid() && Cached() == {}
      ensures this.configured == configured && this.enableCaching == enableCaching && this.codec == codec
      ensures View() == Client(configured, enableCaching, map[])
    {
      this.configured, this.enableCaching, this.codec := configured, enableCaching, codec;
      schemaCache := map[];
      avroCache := if withAvroCache then Some(map[]) else None;
    }

    /** Parsing through the cache is parsing. */
    method ParsedAvro(schemaStr: GoString) returns (r: Option<Serdes.Parsed>)
      requires Valid()
      modifies this`avroCache
      ensures Valid()
      ensures r == codec.parse(schemaStr)
      ensures avroCache == if old(avroCache).Some? && r.Some?
                           then Some(old(avroCache).value[schemaStr := r.value]) else old(avroCache)
    {
      if avroCache.Some? && schemaStr in avroCache.value {
        assert avroCache.value[schemaStr := avroCache.value[schemaStr]] == avroCache.value;
        return Some(avroCache.value[schemaStr]);
      }
      r := codec.parse(schemaStr);
      if r.Some? && avroCache.Some? {
        avroCache := Some(avroCache.value[schemaStr := r.value]);
      }
    }

    /** The result never depends on what was parsed before. */
    method Serialize(data: AvroValues.Value, schemaType: GoString, schema: Schema?) returns (r: Result<Bytes>)
      requires Valid()
      modifies this`avroCache
      ensures Valid()
      ensures r == Serdes.Serialize(codec, data, schemaType, InfoOf(schema))
    {
      Serdes.TypesDistinct();
      if schemaType == Ascii("AVRO") && schema != null {
        var parsed := ParsedAvro(schema.schema);
        if parsed.None? {
          return Err(Serdes.BAD_SCHEMA);
        }
        var normalized := AvroNormalizer.NormalizeAvroValue(parsed.value.env, parsed.value.schema, data);
        if normalized.Err? {
          return Err("failed to normalize Avro data");
        }
        var encoded := codec.marshal(parsed.value, normalized.value);
        if encoded.Err? {
          return Err(encoded.message);
        }
        return Wrap(Some(schema.Info()), encoded.value);
      }
      if schemaType == Ascii("BYTES") {
        var b := AvroNormalizer.CoerceToBytes(data);
        return if b.Some? then Ok(b.value) else Err("BYTES serialize expects []byte");
      }
      r := Serdes.Serialize(codec, data, schemaType, InfoOf(schema));
    }

    method Deserialize(data: Bytes, schemaType: GoString, schema: Schema?) returns (r: Result<AvroValues.Value>)
      requires Valid()
      modifies this`avroCache
      ensures Valid()
      ensures r == Serdes.Deserialize(codec, data, schemaType, InfoOf(schema))
    {
      Serdes.TypesDistinct();
      if schemaType == Ascii("AVRO") && schema != null {
        var stripped := Strip(data, Some(schema.Info()));
        if stripped.Err? {
          return Err(stripped.message);
        }
        var parsed := ParsedAvro(schema.schema);
        if parsed.None? {
          return Err(Serdes.BAD_SCHEMA);
        }
        return codec.unmarshal(parsed.value, stripped.value);
      }
      r := Serdes.Deserialize(codec, data, schemaType, InfoOf(schema));
    }

    method RecordFullName(schemaStr: GoString) returns (r: Result<GoString>)
      requires Valid()
      modifies this`avroCache
      ensures Valid()
      ensures r == Serdes.RecordFullName(codec, schemaStr)
    {
      if schemaStr == [] {
        return Err("record-name strategy requires a schema");
      }
      var parsed := ParsedAvro(schemaStr);
      if parsed.None? {
        return Err(Serdes.BAD_SCHEMA);
      }
      if !AvroValues.Named(parsed.value.schema) {
        return Err("record-name strategy requires a named Avro schema");
      }
      return Ok(parsed.value.schema.name);
    }

    method GetSubjectName(topic: GoString, element: GoString, strategy: GoString, schemaStr: GoString)
      returns (r: Result<GoString>)
      requires Valid()
      modifies this`avroCache
      ensures Valid()
      ensures r == Serdes.SubjectName(codec, topic, element, strategy, schemaStr)
    {
      if strategy == [] || strategy == Ascii("TopicNameStrategy") {
        return Ok(topic + Ascii("-") + codec.toLower(element));
      }
      if strategy == Ascii("RecordNameStrategy") {
        r := RecordFullName(schemaStr);
        return;
      }
      if strategy == Ascii("TopicRecordNameStrategy") {
        r := RecordFullName(schemaStr);
        if r.Ok? {
          r := Ok(topic + Ascii("-") + r.value);
        }
        return;
      }
      return Err("unknown subjectNameStrategy");
    }

    /** Stores a new object for a fetched schema. */
    method Store(key: GoString, info: SchemaInfo) returns (schema: Schema)
      requires Valid()
      modifies this`schemaCache
      ensures Valid()
      ensures fresh(schema) && schema.Info() == info
      ensures schemaCache == old(schemaCache)[key := schema]
      ensures View() == old(View()).(cache := old(View()).cache[key := info])
      ensures forall s | s in Cached() :: s in old(Cached()) || s == schema
    {
      schema := new Schema(info);
      schemaCache := schemaCache[key := schema];
      forall s | s in Cached()
        ensures s in old(Cached()) || s == schema
      {
        var k :| k in schemaCache && schemaCache[k] == s;
        assert k == key || k in old(schemaCache);
      }
      assert View().cache == old(View()).cache[key := info];
    }

    /** What a lookup must hand back: a new object holding the expected schema, so
        no cached object and none the caller had. */
    ghost predicate Answers(r: Result<Schema>, want: Result<SchemaInfo>)
      reads this, if r.Ok? then {r.value} else {}
    {
      match want
      case Ok(info) => r.Ok? && r.value.Info() == info && r.value !in Cached()
      case Err(message) => r == Err(message)
    }

    /** getSchema. reply is the registry's answer, used only when it is asked. */
    method GetByVersion(subject: GoString, version: Option<int>, reply: Reply)
      returns (r: Result<Schema>, asked: Option<GoString>)
      requires Valid()
      modifies this`schemaCache
      ensures Valid()
      ensures var spec := GetSpec(old(View()), subject, version, reply);
              View() == spec.client && asked == spec.asked && Answers(r, spec.result)
      ensures r.Ok? ==> fresh(r.value)
      ensures forall s | s in Cached() :: s in old(Cached()) || fresh(s)
    {
      asked := None;
      if !configured {
        return Err(NEEDS_REGISTRY), asked;
      }
      var key := Key(subject, version);
      if enableCaching && key in schemaCache {
        var copy := CopySchema(schemaCache[key]);
        return Ok(copy), asked;
      }
      asked := Some(RequestPath(subject, version));
      if reply.Refused? {
        return Err(reply.message), asked;
      }
      if enableCaching {
        var schema := Store(key, reply.info);
        label Stored:
        var copy := CopySchema(schema);
        assert View() == old@Stored(View());
        return Ok(copy), asked;
      }
      var schema := new Schema(reply.info);
      assert View() == old(View());
      return Ok(schema), asked;
    }

    method GetSchema(param: Schema?, reply: Reply) returns (r: Result<Schema>, asked: Option<GoString>)
      requires Valid()
      modifies this`schemaCache
      ensures Valid()
      ensures var spec := GetSchemaSpec(old(View()), old(InfoOf(param)), reply);
              View() == spec.client && asked == spec.asked && Answers(r, spec.result)
      ensures r.Ok? ==> fresh(r.value)
      ensures forall s | s in Cached() :: s in old(Cached()) || fresh(s)
    {
      if !configured {
        return Err(NEEDS_REGISTRY), None;
      }
      if param == null || param.subject == [] {
        return Err(NEEDS_SUBJECT), None;
      }
      r, asked := GetByVersion(param.subject, if param.version > 0 then Some(param.version) else None, reply);
    }

    /** CreateSchema never touches the cache. */
    method CreateSchema(param: Schema?, reply: Registration) returns (r: Result<Schema>)
      ensures r.Ok? <==> CreateSpec(Client(configured, enableCaching, map[]), InfoOf(param), reply).Ok?
      ensures r.Ok? ==> fresh(r.value)
      ensures r.Ok? ==> r.value.Info() == CreateSpec(Client(configured, enableCaching, map[]), InfoOf(param), reply).value
      ensures r.Err? ==> r.message == CreateSpec(Client(configured, enableCaching, map[]), InfoOf(param), reply).message
    {
      if !configured {
        return Err(NEEDS_REGISTRY);
      }
      if param == null || param.subject == [] || param.schema == [] || param.schemaType == [] {
        return Err(NEEDS_SUBJECT);
      }
      if reply.Rejected? {
        return Err(reply.message);
      }
      var version := if reply.version.Some? then reply.version.value else 0;
      var schema := new Schema(SchemaInfo(reply.id, param.subject, version, param.schema, param.schemaType));
      return Ok(schema);
    }
  }

  method CopySchema(s: Schema) returns (c: Schema)
    ensures fresh(c) && c.Info() == s.Info()
  {
    c := new Schema(s.Info());
  }
}
