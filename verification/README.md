# xk6-kafka: a verified model

A Dafny model of the stateful and arithmetical parts of the k6 Kafka extension
(`pkg/kafka`), with proofs about whole runs of it. Check it with
`dafny verify dfyconfig.toml`.

| file | what it models |
|---|---|
| `Rounding.dfy` | rounding an integer to p significant bits, ties to even, which is what Go's float conversions do |
| `AvroValues.dfy`, `AvroNormalizer.dfy` | the Avro value normalizer: as a function of schema and value, and as the loops that compute it |
| `AvroLaws.dfy`, `AvroFloats.dfy`, `AvroTyping.dfy` | its laws: idempotence, exactly when meaning is kept, exactly when the encoder's types are established, `long`, `float` and `double` arithmetic |
| `AvroUnions.dfy`, `AvroEncoding.dfy` | unions, whose values come in any branch and wrapped or not: exactly when a normalized value reaches the encoder in its types, and what its encoding can hold |
| `WireFormat.dfy`, `Serdes.dfy` | the Confluent envelope, `serialize`, `deserialize`, subject names, and the round trips |
| `CacheKey.dfy`, `SchemaRegistry.dfy`, `RegistrySession.dfy` | the registry client as an object with its two caches, and whole sessions of script calls against a changing registry |
| `ParseRaces.dfy`, `SerdesRaces.dfy` | concurrent callers of the parse cache, interleaved at the lock boundaries, and the registry's operations among them |
| `Metrics.dfy`, `Collector.dfy`, `CollectorRuns.dfy` | the metrics collector and every interleaving of hooks and drains |
| `CallSite.dfy`, `FlushRuns.dfy` | flushing, and a collector under calls that flush samples of their own |
| `Consumer.dfy`, `ConsumerRuns.dfy`, `ReaderHooks.dfy`, `ReaderSession.dfy` | `Reader.Consume`, `Reader.Close`, whole runs of consumes, closes and hooks, and sessions on the object |
| `Producer.dfy`, `ProducerRuns.dfy`, `WriterSession.dfy` | the same for `Writer.Produce` and `Writer.Close`, with record marshaling |
| `Admin.dfy` | manual replica assignments |

## How it models the system

- A Go string or `[]byte` is a sequence of bytes. A finite float64 is a whole number
  of units of 2^-1074, so conversions are computed exactly; the two zeros are one value.
- An Avro schema is a tree with named references into an environment, so recursive
  records are included. References have a target that is a record, enum or fixed type,
  and a union does not directly hold a union, as the Avro specification requires in its
  section "Unions". The Avro, JSON, UTF-8 and formatting libraries are function values.
  Of the Avro library the round trip assumes that it decodes what its encoding of a
  value holds: for a record its fields, a field left out by its default, and no other key;
  for a union the value of one branch. A map with one entry, under the name of a branch,
  is read as a wrapper if what it holds has that branch's types; any other value is read
  as the first branch whose types it has.
- Go leaves `int64(x)` to the implementation when x is out of range, and the guard for
  `long` lets x = 2^63 through, because its upper constant becomes a float64. The
  environment carries the machine's answer, the least or the largest int64.
- Where Go ranges over a map, the model takes an arbitrary order and hands it back, and
  every theorem holds for all orders.
- The registry's replies, the outcomes of polls, the moments at which contexts become
  done, the hooks and the produce results are inputs, and the theorems hold for all of
  them. `PollRecords` yields at most what it was asked for, from a stream of records in
  the order the client will hand them out; `ProduceSync` gives each record one result.
- Hooks and drains take the collector's mutex, so an interleaving is a sequence of
  atomic events. A hook that fires while `Consume`, `Produce` or `Close` runs is seen by
  that call's drain or by a later one; the model attributes it to a poll, to the produce
  request, or to the close.

## What turned out false

- The documented round-trip promise of the Avro serializer, that decoding gives back an
  equivalent value with the same keys, fails for values in the encoder's types in three
  ways. Integers pass through float64: `LongLost` reads 2^53 + 1 back as 2^53, and `LongIsNotExact` adds the largest
  int64, which becomes the least one on a machine that answers so. A key that is no field
  of its record passes the normalizer and is not written: `UnknownKeyLost`. A field that
  is left out comes back as its default: `DefaultAppears`. `AvroRoundTrip` says for every
  value that reaches the encoder in its types that the promise holds, wrappers taken
  off, exactly when every leaf fits its schema and every record has the schema's fields.
- Not every documented union value reaches the encoder in its types, because the
  normalizer converts by the first branch that is not null and does not look into a
  wrapper: `{ int: 5 }` under `["null", "int"]` keeps its int64 (`WrappedIntKept`), and so
  does 5 under `["string", "int"]` (`LaterIntKept`). `NormalizeReaches` says for every
  schema and value exactly which do.
- The documented JSON round trip fails for data that is no object, which serializes
  unchecked and cannot be read back: `JsonListLost` is an input, `JsonRoundTrip` the exact
  condition.
- The documented BYTES and STRING round trips fail when a schema with an ID is passed and
  the data is five bytes or more and starts with a zero byte: `BytesLost` and `StringLost`
  are inputs, `BytesRoundTrip` and `StringRoundTrip` the exact conditions.

## Model

| member | source | states |
|---|---|---|
| Rounding.RoundIsNearest | pkg/kafka/schema_registry.go:646-651 | the float64 an integer converts to is a nearest one among all that fit in the significand |
| Rounding.RoundTiesToEven | pkg/kafka/schema_registry.go:646-651 | when another is just as near, the even one is taken |
| Rounding.RoundFixesExactlyFits | pkg/kafka/schema_registry.go:646-651 | conversion leaves a number alone exactly when the spacing of floats at its size divides it |
| Rounding.RoundIdempotent | pkg/kafka/schema_registry.go:614-621 | converting twice is converting once, down to the least float |
| Rounding.RoundMonotone | pkg/kafka/schema_registry.go:646-651 | conversion keeps order, across sizes and signs |
| AvroFloats.FitsExact | pkg/kafka/schema_registry.go:614-651 | a float can hold a number exactly if it is an integer of at most p bits times a power of two no finer than the least unit |
| AvroFloats.DoubleResult | pkg/kafka/schema_registry.go:618-621 | under double an integer becomes a nearest one among all of 53 bits, the even one on a tie, and a float keeps its value |
| AvroFloats.FloatResult | pkg/kafka/schema_registry.go:614-617 | under float a number becomes a nearest float32 to what it is under double, the even one on a tie; infinity of its sign exactly from 2^128 - 2^103 on; NaN and infinities stay |
| AvroFloats.FloatIsNotExact | pkg/kafka/schema_registry.go:614-617 | 2^24 + 1 becomes 2^24 |
| AvroNormalizer.CoerceToBytes | pkg/kafka/schema_registry.go:456-499 | the loop yields bytes exactly for byte-like values, element by element |
| AvroNormalizer.NormalizeAvroValue | pkg/kafka/schema_registry.go:554-602 | for every schema, recursive ones included, and every value, it terminates, never returns an error, and computes the function the laws below are about |
| AvroNormalizer.NormalizeAvroRecord | pkg/kafka/schema_registry.go:533-552 | the field loop normalizes exactly the entries that are fields, whatever the map order |
| AvroLaws.RecordEntry | pkg/kafka/schema_registry.go:533-552 | a record keeps its keys; unknown keys keep their values and fields take their own type |
| AvroLaws.NormalizeIdempotent | pkg/kafka/schema_registry.go:533-632 | normalizing a normalized value changes nothing |
| AvroLaws.PrimitiveIdempotent | pkg/kafka/schema_registry.go:604-632 | the same for the leaves, the out-of-range int64 included |
| AvroLaws.NormalizeKeepsMeaning | pkg/kafka/schema_registry.go:533-656 | the exact content of a value (numeric type and byte container erased) survives if and only if no leaf is too wide for its schema and no nil meets bytes |
| AvroLaws.GuardExact | pkg/kafka/schema_registry.go:610-613 | which integers convert to 2^63, and which into the int64 range, by their own bounds |
| AvroLaws.LongLeaf | pkg/kafka/schema_registry.go:610-613 | an integer survives long exactly when it needs no more than 53 bits, or is out of range, or is one of the top ones and the machine's answer |
| AvroLaws.PrimitiveMeaning | pkg/kafka/schema_registry.go:604-656 | the leaf conditions, by divisibility: 53 bits for long and double, 24 bits and the float32 range for float |
| AvroLaws.FloatLeaf | pkg/kafka/schema_registry.go:614-617 | rounding first to float64 and then to float32 keeps a number exactly when a float32 can hold it |
| AvroLaws.IntLeaf | pkg/kafka/schema_registry.go:606-609 | whatever passes the guard for int was converted exactly |
| AvroValues.FirstNonNullIn | pkg/kafka/schema_registry.go:590-595 | the branch taken is not null, and only null branches come before it |
| AvroValues.FieldTypeIn | pkg/kafka/schema_registry.go:540-550 | the type a key takes is that of the last field of that name |
| AvroLaws.MapResult | pkg/kafka/schema_registry.go:572-585 | a map keeps its keys, and every value is normalized |
| AvroLaws.ArrayResult | pkg/kafka/schema_registry.go:558-571 | lists, []byte and byte arrays become lists, element by element; an ArrayBuffer and anything else is left alone |
| AvroLaws.CoerceByteExact | pkg/kafka/schema_registry.go:501-531 | a value coerces to a byte exactly if it is a number that means one, of whatever type |
| AvroLaws.CoerceBytesExact | pkg/kafka/schema_registry.go:456-499 | coercion succeeds exactly on nil, byte containers and lists of byte-sized numbers, with the bytes they mean |
| AvroLaws.CoerceAllMeaning | pkg/kafka/schema_registry.go:490-531 | bytes made from a numeric list mean what the list meant |
| AvroTyping.NormalizeEstablishesTypes | pkg/kafka/schema_registry.go:554-632 | the result has exactly the encoder's Go types at every position if and only if the value fits the schema up to numeric type and byte container |
| AvroTyping.PrimitiveEstablishes | pkg/kafka/schema_registry.go:604-632 | the same for the leaves |
| AvroTyping.RefusedLeaf | pkg/kafka/schema_registry.go:604-632 | a leaf its guard refuses is left as it is, Go type included |
| AvroTyping.LeftAlone | pkg/kafka/schema_registry.go:533-602 | what no conversion is for is left as it is |
| AvroTyping.LongResult | pkg/kafka/schema_registry.go:610-613 | an int64 under long becomes the nearest 53-bit integer, within 512 and unchanged up to 2^53; the 512 largest become what the machine yields for 2^63 |
| AvroTyping.LongMonotone | pkg/kafka/schema_registry.go:610-613 | below those, order is kept |
| AvroTyping.LongIsNotExact | pkg/kafka/schema_registry.go:610-613 | two int64 values that do not survive |
| AvroUnions.NormalizeReaches | pkg/kafka/schema_registry.go:533-632 | for every schema and value: normalized, it has the types of some branch at every union, as it is or wrapped, if and only if so by the guards on the value itself |
| AvroUnions.ReachesExact | pkg/kafka/schema_registry.go:554-632 | the same for a value normalized by one schema and read as another, as happens behind a first branch |
| AvroUnions.AcceptableReaches | pkg/kafka/schema_registry.go:586-596 | values of first branches always do |
| AvroUnions.WrappedUnconverted | pkg/kafka/schema_registry.go:586-596 | unless the first branch is a map, or a record with a field of that name, what a wrapper holds is not converted, and reaches the encoder only if it already has the branch's types |
| AvroUnions.NullableWrapped | index.d.ts:1088-1090 | a wrapped value of a nullable leaf is left alone, and reaches the encoder exactly if it already has the leaf's Go type |
| AvroUnions.WrappedIntKept | index.d.ts:1088-1090 | an int64 under a nullable int reaches the encoder when passed directly and not when wrapped |
| AvroUnions.WrappedStringReaches | index.d.ts:1088-1090 | a string under a nullable string reaches it either way |
| AvroUnions.LaterIntKept | pkg/kafka/schema_registry.go:590-595 | an int64 that only a later branch takes is not converted |
| AvroEncoding.WrittenExact | pkg/kafka/schema_registry.go:533-602 | what the encoding of a normalized value can hold is what the value meant, wrappers taken off, if and only if every leaf fits and every record has exactly the schema's fields, defaulted ones included |
| AvroEncoding.WraplessMeant | index.d.ts:1088-1090 | a value that is nowhere read as a wrapper means what it holds |
| AvroEncoding.WrittenKeepsMeaning | pkg/kafka/schema_registry.go:533-602 | for such a value, the encoding holds its own content if and only if every leaf fits and every record has exactly the schema's fields |
| AvroEncoding.SameRecord | pkg/kafka/schema_registry.go:533-552 | the same for one record: keys that are no fields are lost, and defaults appear |
| WireFormat.DecodeExact | pkg/kafka/schema_registry.go:416-451 | data decodes to an ID and a rest if and only if it is that ID's envelope followed by the rest |
| WireFormat.EnvelopeLayout | pkg/kafka/schema_registry.go:416-426 | a zero byte, then the ID in four bytes, most significant first, then the payload |
| WireFormat.StripExact | pkg/kafka/schema_registry.go:756-770 | the two kinds of data that stripping accepts, and what it returns for each |
| WireFormat.EnvelopeRoundTrip | pkg/kafka/schema_registry.go:428-451 | for IDs 1 to 2^32-1, the same ID unwraps the payload and every other non-zero ID rejects it |
| WireFormat.EnvelopeAbsent | pkg/kafka/schema_registry.go:428-437 | ID 0 and no schema are the identity both ways; wrapping fails exactly outside uint32 |
| WireFormat.StripUnwrapped | pkg/kafka/schema_registry.go:758-770 | data that was never wrapped comes back exactly when nothing makes it look wrapped |
| Serdes.SerializeTypes | pkg/kafka/schema_registry.go:686-742 | STRING takes strings and sends their bytes; BYTES takes exactly the byte-like and sends the bytes meant; AVRO and JSON need a schema; no other type is known |
| Serdes.DeserializeTypes | pkg/kafka/schema_registry.go:773-848 | STRING and BYTES yield what is left when the envelope is off, STRING if that is valid UTF-8; the same types are known |
| Serdes.BytesRoundTrip | pkg/kafka/schema_registry.go:694-795 | serialized bytes are the data, and deserializing gives it back under the exact condition |
| Serdes.StringRoundTrip | pkg/kafka/schema_registry.go:688-786 | the same for strings, with UTF-8 validity |
| Serdes.BytesLost | pkg/kafka/schema_registry.go:788-795 | five bytes that come back as none |
| Serdes.StringLost | pkg/kafka/schema_registry.go:774-786 | the same five bytes as a string come back as the empty string |
| Serdes.AvroSerializeExact | pkg/kafka/schema_registry.go:700-716 | AVRO serializes exactly if the schema parses, the library encodes the normalized data, and the ID fits |
| Serdes.AvroDeserializeExact | pkg/kafka/schema_registry.go:797-818 | Avro bytes deserialize to what the library decodes once the envelope is off, exactly if the envelope, the schema and the library allow it |
| Serdes.AvroEnvelopeTransparent | pkg/kafka/schema_registry.go:700-818 | whatever serialization emits, the decoder sees the encoder's own output |
| Serdes.AvroRoundTrip | pkg/kafka/schema_registry.go:700-818 | given a codec that decodes what its encoding of the value holds, a value that reaches the encoder, in any branch and wrapped or not, always deserializes if it serializes, to an equivalent value, wrappers taken off, exactly when every leaf fits and every record has the schema's fields |
| Serdes.LongLost | pkg/kafka/schema_registry.go:610-613 | 2^53 + 1 under long is read back as 2^53 |
| Serdes.UnknownKeyLost | pkg/kafka/schema_registry.go:538-539 | a record with a key that is no field is read back without it |
| Serdes.DefaultAppears | pkg/kafka/schema_registry.go:540-544 | a record without a defaulted field is read back with the default |
| Serdes.WrappedStringRead | index.d.ts:1088-1090 | a wrapped string under a nullable string is read back as the string |
| Serdes.FieldCodecDecodes | pkg/kafka/schema_registry.go:700-818 | a codec that writes nothing but the fields meets what the round trip assumes, on values with unknown keys too |
| Serdes.JsonSerializeExact | pkg/kafka/schema_registry.go:718-735 | JSON serializes exactly if an object has every field its schema's "required" list names, the library encodes the data, and the ID fits |
| Serdes.JsonDeserializeExact | pkg/kafka/schema_registry.go:820-840 | bytes deserialize exactly if the envelope comes off, the library decodes an object, and that has every required field |
| Serdes.EmptyObjectRefused | pkg/kafka/schema_registry.go:850-874 | an empty object is refused both ways when a field is required |
| Serdes.JsonRoundTrip | pkg/kafka/schema_registry.go:718-840 | whatever serializes as JSON deserializes exactly if it is an object, whose required fields are found both times, or null where none is required; a value the library encodes as an object counts as one if it has the required fields |
| Serdes.JsonEnvelopeTransparent | pkg/kafka/schema_registry.go:718-840 | what comes back is what the JSON library decodes from its own output, if that is an object with the required fields |
| Serdes.JsonListLost | pkg/kafka/schema_registry.go:723-833 | [1] serializes and does not deserialize |
| Serdes.MissingFieldExact | pkg/kafka/schema_registry.go:850-874 | the check fails exactly when a required field is absent, and names one; entries that are not strings are skipped |
| CacheKey.SplitInvertsKey | pkg/kafka/schema_registry.go:166-173 | splitting a key at its last NUL recovers the subject and the version, for subjects with NULs and for any version |
| CacheKey.KeyInjective | pkg/kafka/schema_registry.go:166-173 | two lookups share a key exactly when they ask for the same thing |
| Serdes.RecordNameExact | pkg/kafka/schema_registry.go:393-411 | a schema has a record name exactly if it parses to a record, an enum or a fixed type, and then that type's |
| Serdes.SubjectNameExact | pkg/kafka/schema_registry.go:370-391 | which name each strategy gives, the order of topic and name, and that no other strategy is known |
| SchemaRegistry.SchemaRegistry.constructor | pkg/kafka/schema_registry.go:109-164 | a new client caches nothing |
| SchemaRegistry.SchemaRegistry.ParsedAvro | pkg/kafka/schema_registry.go:175-196 | the result is that of parsing afresh, with the cache and without; a failure is not stored |
| SchemaRegistry.SchemaRegistry.Serialize | pkg/kafka/schema_registry.go:686-742 | the result does not depend on the parse cache |
| SchemaRegistry.SchemaRegistry.Deserialize | pkg/kafka/schema_registry.go:773-848 | the same |
| SchemaRegistry.SchemaRegistry.RecordFullName | pkg/kafka/schema_registry.go:393-411 | the same |
| SchemaRegistry.SchemaRegistry.GetSubjectName | pkg/kafka/schema_registry.go:370-391 | the same |
| SchemaRegistry.SchemaRegistry.GetByVersion | pkg/kafka/schema_registry.go:214-267 | the object returned is new and not a cached one; cache, answer and the request made, if any, are those of the value model |
| SchemaRegistry.SchemaRegistry.GetSchema | pkg/kafka/schema_registry.go:198-212 | the same through the public entry, with its refusals |
| SchemaRegistry.AskedVersion | pkg/kafka/schema_registry.go:207-232 | the request is for the version given when that is positive, and for the latest otherwise |
| SchemaRegistry.LookupRefused | pkg/kafka/schema_registry.go:199-206 | a lookup without a registry or a subject is refused without a request, and no other is |
| SchemaRegistry.RegisteredExact | pkg/kafka/schema_registry.go:276-354 | registration needs a registry, a subject, a schema and a type; the result is the schema given with the ID answered and its version, 0 if absent |
| SchemaRegistry.SchemaRegistry.CreateSchema | pkg/kafka/schema_registry.go:276-354 | registration returns a new object and leaves the cache alone |
| SchemaRegistry.CopySchema | pkg/kafka/schema_registry.go:269-274 | a copy is a new object with equal fields |
| RegistrySession.RunSession | pkg/kafka/schema_registry.go:198-290 | a session on the object, in which scripts overwrite the objects they hold, has the outcomes of the value model, where such writes do nothing; no object a script holds is a cached one |
| RegistrySession.CachedLookup | pkg/kafka/schema_registry.go:215-267 | in any session, a lookup answers with the first success ever had for its subject and version without asking; until then it asks, and refusals are not remembered |
| RegistrySession.SharedAnswer | pkg/kafka/schema_registry.go:207-232 | after a success, the next lookup of a subject shares the answer exactly when the versions are equal or both not positive |
| RegistrySession.UncachedLookup | pkg/kafka/schema_registry.go:215-267 | with caching off every lookup asks |
| RegistrySession.FetchedOnce | pkg/kafka/schema_registry.go:215-267 | after one success the registry is never asked for it again |
| ParseRaces.AlwaysTransparent | pkg/kafka/schema_registry.go:175-196 | in every interleaving every entry is what parsing yields, no failure is stored, and every request gets the answer it gets when nothing is cached |
| ParseRaces.EntriesStay | pkg/kafka/schema_registry.go:175-196 | no race loses or changes an entry |
| ParseRaces.CacheInvisible | pkg/kafka/schema_registry.go:175-196 | runs with and without a cache give equal answers to equal requests |
| SerdesRaces.ParsesItsKeyOnly | pkg/kafka/schema_registry.go:393-818 | serialize, deserialize and getSubjectName parse one schema at most, the one named, and depend on no other parse |
| SerdesRaces.ServedAfresh | pkg/kafka/schema_registry.go:370-848 | in every interleaving of such calls, cached or not, each answer is that of parsing afresh |
| Collector.MetricsCollector.OnBrokerConnect | pkg/kafka/metrics.go:139-147 | its whole new state |
| Collector.MetricsCollector.OnBrokerWrite | pkg/kafka/metrics.go:149-159 | its whole new state, for the writer's produce requests only |
| Collector.MetricsCollector.OnBrokerRead | pkg/kafka/metrics.go:161-171 | its whole new state, for the reader's fetch requests only |
| Collector.MetricsCollector.OnProduceBatchWritten | pkg/kafka/metrics.go:173-181 | its whole new state |
| Collector.MetricsCollector.OnFetchBatchRead | pkg/kafka/metrics.go:183-189 | its whole new state |
| Collector.MetricsCollector.DrainHooks | pkg/kafka/metrics.go:233-277 | the samples appended and the state left, for the map order taken |
| Collector.MetricsCollector.Flush | pkg/kafka/metrics.go:209-231 | nothing without VU state; otherwise the call's samples and then the drained ones |
| CollectorRuns.AlwaysBalanced | pkg/kafka/metrics.go:104-189 | in every reachable state pending counts equal buffer lengths, per topic for batches |
| CollectorRuns.EachDrainAgrees | pkg/kafka/metrics.go:246-276 | in every drain, each counter equals the number of trend samples with its tag, and no counter sample is zero |
| CollectorRuns.TrendsAlwaysConserved | pkg/kafka/metrics.go:137-276 | for every interleaving, drained trends followed by the buffers are the observed values in order |
| CollectorRuns.CountsAlwaysConserved | pkg/kafka/metrics.go:137-269 | for every interleaving, drained counts plus pending deltas are the numbers of events, per topic |
| CollectorRuns.FinalDrainComplete | pkg/kafka/metrics.go:320-323 | after a last drain totals and trends are complete |
| CollectorRuns.FinalWriterDrain | pkg/kafka/metrics.go:236-239 | the same for a writer, metric by metric |
| CollectorRuns.DrainPlacementIrrelevant | pkg/kafka/metrics.go:104-110 | two runs with the same hooks and any drains, both ending in one, give the same totals and trends |
| CallSite.FlushProduce | pkg/kafka/metrics.go:279-292 | the samples handed to k6 and the collector left behind |
| CallSite.FlushConsume | pkg/kafka/metrics.go:294-318 | the same for consume |
| CallSite.ProduceSiteReads | pkg/kafka/metrics.go:279-292 | k6's sums per topic are the counts given, whatever the map order |
| CallSite.ConsumeSiteReads | pkg/kafka/metrics.go:294-318 | the same, with lags and offsets in order and one error or timeout at most |
| Consumer.Client.PollRecords | pkg/kafka/consumer.go:273 | at most the requested number of records; followed by those left, they are the stream |
| Consumer.Batch.Add | pkg/kafka/consumer.go:276-281 | a message that tells the record field by field, and its counts, bytes, lag and offset |
| Consumer.HeadersExact | pkg/kafka/consumer.go:350-353 | the header map has exactly the record's keys, each with the value of the last header of that key |
| Consumer.DecodeTells | pkg/kafka/consumer.go:345-364 | a message has its record's topic, partition, offset, watermark, key, value, headers and time |
| Consumer.Reader.Gather | pkg/kafka/consumer.go:272-296 | the poll loop ends as specified and holds every record polled |
| Consumer.Reader.Consume | pkg/kafka/consumer.go:242-314 | outcome, records left, samples and collector, in every case including errors; the messages returned tell the records taken, one each, field by field |
| Consumer.Reader.Conclude | pkg/kafka/consumer.go:289-313 | the branches after the loop, each with its outcome and its flush |
| Consumer.Reader.Close | pkg/kafka/consumer.go:318-337 | a last drain, once; a second close does nothing |
| ConsumerRuns.LastPollDecides | pkg/kafka/consumer.go:272-296 | every poll before the last was quiet, and the last decides: done context, then real error, then wait errors, then limit |
| ConsumerRuns.ConsumeDecided | pkg/kafka/consumer.go:249-313 | by the poll that ended the loop: exactly when a call fails by fetch error, cancellation or timeout; never more than the limit; the only two ways to return fewer |
| ConsumerRuns.ConsumeRefused | pkg/kafka/consumer.go:243-251 | what fails before a poll, and the call that asks for nothing: nothing is polled or flushed |
| ConsumerRuns.StreamConserved | pkg/kafka/consumer.go:242-314 | over any run, records polled and records left make up the stream, in order |
| ConsumerRuns.CallConserves | pkg/kafka/consumer.go:242-314 | a call that returns, returns exactly the records it polled, each told field by field; one that fails, none |
| ConsumerRuns.ReturnedIsPolled | pkg/kafka/consumer.go:242-314 | if no call fails, the returned batches concatenated tell the polled stream, record by record and field by field |
| ConsumerRuns.CountsAgree | pkg/kafka/consumer.go:256-313 | over any run and per topic, message and byte samples add up to what scripts received, whatever the hooks and closes in between |
| ConsumerRuns.TrendsAgree | pkg/kafka/consumer.go:276-281 | lag and offset samples are those messages', in order |
| ConsumerRuns.FailuresAgree | pkg/kafka/consumer.go:287-311 | timeouts count the calls maxWait ended, errors those a fetch error ended, cancelled calls neither |
| FlushRuns.TrendsConserved | pkg/kafka/metrics.go:209-277 | for either role and any calls that flush samples of their own before a drain, trends built and then buffered are the observed values in order |
| FlushRuns.CountsConserved | pkg/kafka/metrics.go:209-269 | for such calls, counters built plus pending deltas are the numbers of events, per topic, and a flush leaves no delta |
| FlushRuns.FlushCompletes | pkg/kafka/metrics.go:209-277 | each flush completes every total and trend up to then |
| ReaderHooks.ReaderTimingsConserved | pkg/kafka/consumer.go:242-337 | over any run of consumes, closes and hooks between them, the dial, read and wait times built, followed by those buffered, are the ones reported, in order |
| ReaderHooks.ReaderBatchesConserved | pkg/kafka/consumer.go:242-337 | the same for the sizes and bytes of fetched batches, with their topics |
| ReaderHooks.ReaderCountsConserved | pkg/kafka/consumer.go:242-337 | over any run, dial and fetch counters built plus pending deltas are the numbers of events, per topic |
| ReaderHooks.CloseCompletes | pkg/kafka/consumer.go:316-322 | closing an open reader leaves nothing pending: every total and trend up to then is complete, metric by metric |
| ReaderSession.RunReader | pkg/kafka/consumer.go:239-337 | any calls on the object, with hooks in between, form such a run, and its outcomes and samples are the run's |
| ReaderSession.SessionAgrees | pkg/kafka/consumer.go:242-337 | in a session on the object, counters and trends are those of the messages the script received, in order |
| Producer.ToBytesExact | pkg/kafka/producer.go:252-267 | nil is sent as no bytes, a string as its own, a byte container as its content, a list of byte-sized numbers as the bytes it means, anything else as formatted |
| Producer.MarshalRecord | pkg/kafka/producer.go:237-250 | topic, time, key, value and headers of the record, by that account, for the map order taken |
| Producer.HeadersRoundTrip | pkg/kafka/producer.go:246-248 | for any map order, the consumer decodes the headers to the same keys with what their values are sent as |
| Producer.StringHeader | pkg/kafka/producer.go:246-248 | a string header is read back as that string |
| Producer.Writer.Marshal | pkg/kafka/producer.go:187-190 | one record per message, in order, with its key, value, time and headers as sent |
| Producer.FirstErrAt | pkg/kafka/producer.go:213-215 | the error returned is that of the first result that has one |
| Producer.AcksExact | pkg/kafka/producer.go:192-203 | every record is counted by the one result about it |
| Producer.Writer.Count | pkg/kafka/producer.go:194-210 | the loop over the results computes the account that AccountExact characterizes |
| Producer.Writer.Produce | pkg/kafka/producer.go:180-217 | samples, collector and error for the marshaled messages; it fails exactly when a result failed, with the first failure |
| Producer.Writer.Close | pkg/kafka/producer.go:221-233 | a last drain, once |
| Producer.AccountExact | pkg/kafka/producer.go:196-210 | per topic, counts and bytes are those of the successes charged to it, an empty topic to the default |
| Producer.ErrorsCounted | pkg/kafka/producer.go:198-216 | an error is returned exactly when one was counted |
| Producer.ProduceReports | pkg/kafka/producer.go:194-211 | the samples of a call, drained ones included, sum to its successes, bytes and failures |
| Producer.EveryMessageCounted | pkg/kafka/producer.go:192-210 | counts over all topics plus errors equal the number of records |
| ProducerRuns.ResultsAgree | pkg/kafka/producer.go:180-233 | over any run of produces, closes and hooks and per topic, message and byte samples add up to the successes and their bytes, and errors to the failures |
| ProducerRuns.EveryRecordCounted | pkg/kafka/producer.go:192-211 | over any run, message counters over all topics plus the error counter are the number of records sent |
| ProducerRuns.WriterTrendsConserved | pkg/kafka/producer.go:180-233 | over any run, the dial, write and wait times and batch sizes and bytes built, then buffered, are the ones reported, in order |
| ProducerRuns.WriterCountsConserved | pkg/kafka/producer.go:180-233 | over any run, dial and batch counters built plus pending deltas are the numbers of events, per topic |
| ProducerRuns.DrainCompletes | pkg/kafka/producer.go:211-231 | every produce that reaches the client, and closing an open writer, completes every total and trend up to then, metric by metric |
| WriterSession.RunWriter | pkg/kafka/producer.go:178-233 | any calls on the object, with hooks in between, form such a run, and its errors and samples are the run's |
| WriterSession.CleanSessionCounted | pkg/kafka/producer.go:180-233 | if no call of a session returns an error, k6's message counter over all topics is the number of messages produced |
| Admin.DistinctInRangeIsDense | pkg/kafka/admin.go:171-191 | N different IDs in 0..N-1 are a permutation of them |
| Admin.PassesExact | pkg/kafka/admin.go:182-191 | the seen-set loop gets through exactly when IDs are in range and different |
| Admin.FillSlots | pkg/kafka/admin.go:180-198 | the loop over the array, with its failures |
| Admin.SlottedReorders | pkg/kafka/admin.go:181-198 | slotting loses and repeats nothing and leaves no slot at its zero value |
| Admin.BuildReplicaAssignments | pkg/kafka/admin.go:175-199 | it succeeds exactly on permutations of 0..N-1 with N within int32; slot p holds the entry for p, and the entries are the input's |

## Left out

- Negative zero: the two float zeros are one value, so its sign is not tracked.
- Typed nil pointers, pointers to values and cyclic JavaScript objects: values are finite trees.
- int64 wrap-around of the collector's counters, and the float64 conversion of sample values: samples hold integers.
- Delivery of samples after a flush builds them: `PushIfNotDone` may drop a batch once the test is over, so conservation is about samples built.
- Emission of hooks that fire after the close-time drain, such as those of the commit that follows it: they stay pending in the code, and in the runs of ReaderHooks and ProducerRuns.
- A writer or reader without a collector, which emits nothing.
- Serdes.AvroRoundTrip: assumes that the codec decodes what its encoding of the value at hand holds; the binary codec itself is not part of this model. Where the library reads a value back in another shape, as it may read a named type inside a union back under its type name, the assumption does not hold and nothing is claimed.
- AvroTyping.NormalizeEstablishesTypes: is stated for the first branch of a union that is not null, the one the normalizer looks at; AvroUnions.NormalizeReaches is for all branches and wrapped values.
- Go types other than the one AvroTyping.PrimitiveConforms gives for each schema, where the Avro library may accept them too: such a value does not reach the encoder in the sense used here.
- Concurrent callers of `getSchema`: it is documented as used from one goroutine.
- HTTP, TLS, SASL, option mapping, timestamp rendering, topic listing and the other admin requests.
