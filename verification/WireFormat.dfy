/** The Confluent wire envelope (pkg/kafka/schema_registry.go:416-451, 756-770). */
module WireFormat {
  import opened Prelude

  const MAX_UINT32: int := 0xffff_ffff

  /** The fields of a registry schema. */
  datatype SchemaInfo = SchemaInfo(
    id: int, subject: GoString, version: int, schema: GoString, schemaType: GoString)

  function BigEndian(n: nat): Bytes
    requires n <= MAX_UINT32
  {
    [n / 0x100_0000, n / 0x1_0000 % 0x100, n / 0x100 % 0x100, n % 0x100]
  }

  function FromBigEndian(b: Bytes): nat
    requires |b| == 4
  {
    b[0] as int * 0x100_0000 + b[1] as int * 0x1_0000 + b[2] as int * 0x100 + b[3] as int
  }

  function EncodeWireFormat(id: int): Result<Bytes> {
    if id < 0 || id > MAX_UINT32 then Err("schema ID out of range") else Ok([0] + BigEndian(id))
  }

  function DecodeWireFormat(data: Bytes): Result<(nat, Bytes)> {
    if |data| < 5 then Err("wire format data too short")
    else if data[0] != 0 then Err("invalid magic byte")
    else Ok((FromBigEndian(data[1..5]), data[5..]))
  }

  /** withWireFormat. */
  function Wrap(schema: Option<SchemaInfo>, payload: Bytes): Result<Bytes> {
    if schema.None? || schema.value.id == 0 then Ok(payload)
    else
      var envelope := EncodeWireFormat(schema.value.id);
      if envelope.Err? then Err(envelope.message) else Ok(envelope.value + payload)
  }

  /** Data that is treated as enveloped when a schema with an ID is given. */
  predicate Enveloped(data: Bytes) {
    |data| >= 5 && data[0] == 0
  }

  /** checkAndStripWireFormat. */
  function Strip(data: Bytes, schema: Option<SchemaInfo>): Result<Bytes> {
    if schema.None? || schema.value.id == 0 || !Enveloped(data) then Ok(data)
    else
      var d := DecodeWireFormat(data);
      if d.Err? then Err(d.message)
      else if d.value.0 != schema.value.id then Err("schema ID mismatch")
      else Ok(d.value.1)
  }

  lemma BigEndianInverse(n: nat)
    requires n <= MAX_UINT32
    ensures FromBigEndian(BigEndian(n)) == n
  {
    var a, b, c := n / 0x100, n / 0x1_0000, n / 0x100_0000;
    assert n == a * 0x100 + n % 0x100;
    assert a == b * 0x100 + a % 0x100;
    assert b == c * 0x100 + b % 0x100;
  }

  lemma FromBigEndianInverse(b: Bytes)
    requires |b| == 4
    ensures FromBigEndian(b) <= MAX_UINT32 && BigEndian(FromBigEndian(b)) == b
  {
    var n := FromBigEndian(b);
    assert n / 0x100_0000 == b[0];
    assert n / 0x1_0000 == b[0] as int * 0x100 + b[1] as int;
    assert n / 0x100 == b[0] as int * 0x1_0000 + b[1] as int * 0x100 + b[2] as int;
  }

  /** The envelope is a zero byte and the ID in four bytes, most significant first. */
  lemma EnvelopeLayout(schema: SchemaInfo, payload: Bytes)
    requires 1 <= schema.id <= MAX_UINT32
    ensures Wrap(Some(schema), payload).Ok?
    ensures var w := Wrap(Some(schema), payload).value;
            |w| == 5 + |payload| && w[0] == 0 && w[5..] == payload
            && schema.id == w[1] as int * 0x100_0000 + w[2] as int * 0x1_0000 + w[3] as int * 0x100 + w[4] as int
  {
    var w := Wrap(Some(schema), payload).value;
    BigEndianInverse(schema.id);
    assert w[5..] == payload;
  }

  /** Decoding inverts encoding on the whole range of IDs, whatever follows, and
      data decodes to an ID only if it is that ID's envelope and the rest. */
  lemma DecodeExact(data: Bytes, id: int, rest: Bytes)
    ensures DecodeWireFormat(data) == Ok((id, rest)) <==>
            EncodeWireFormat(id).Ok? && data == EncodeWireFormat(id).value + rest
  {
    if DecodeWireFormat(data) == Ok((id, rest)) {
      FromBigEndianInverse(data[1..5]);
      assert data == [data[0]] + data[1..5] + data[5..];
    }
    if EncodeWireFormat(id).Ok? && data == EncodeWireFormat(id).value + rest {
      BigEndianInverse(id);
      assert data[1..5] == BigEndian(id) && data[5..] == rest;
    }
  }

  /** With an ID, stripping accepts two kinds of data and no other: data without
      an envelope, which it returns as is, and this ID's envelope with a payload. */
  lemma StripExact(data: Bytes, schema: SchemaInfo, payload: Bytes)
    requires schema.id != 0
    ensures Strip(data, Some(schema)) == Ok(payload) <==>
            (!Enveloped(data) && payload == data)
            || (EncodeWireFormat(schema.id).Ok? && data == EncodeWireFormat(schema.id).value + payload)
  {
    DecodeExact(data, schema.id, payload);
  }

  /** What one schema wraps, the same ID unwraps and every other ID rejects. */
  lemma EnvelopeRoundTrip(schema: SchemaInfo, other: SchemaInfo, payload: Bytes)
    requires 1 <= schema.id <= MAX_UINT32 && other.id != 0
    ensures Wrap(Some(schema), payload).Ok?
    ensures var wrapped := Wrap(Some(schema), payload).value;
            if other.id == schema.id then Strip(wrapped, Some(other)) == Ok(payload)
            else Strip(wrapped, Some(other)).Err?
  {
    var wrapped := Wrap(Some(schema), payload).value;
    DecodeExact(wrapped, schema.id, payload);
    StripExact(wrapped, other, payload);
  }

  /** Without an ID nothing is added or removed, even from a payload that looks
      enveloped; an ID outside uint32 never encodes. */
  lemma EnvelopeAbsent(schema: Option<SchemaInfo>, payload: Bytes)
    ensures schema.None? || schema.value.id == 0 ==>
              Wrap(schema, payload) == Ok(payload) && Strip(payload, schema) == Ok(payload)
    ensures schema.Some? && schema.value.id != 0 ==>
              (Wrap(schema, payload).Err? <==> schema.value.id < 0 || schema.value.id > MAX_UINT32)
  {
  }

  /** Stripping data that was never wrapped gives it back exactly when there is no
      ID to check or nothing that looks like an envelope. */
  lemma StripUnwrapped(data: Bytes, schema: Option<SchemaInfo>)
    ensures Strip(data, schema) == Ok(data) <==>
            schema.None? || schema.value.id == 0 || |data| < 5 || data[0] != 0
  {
    if schema.Some? && schema.value.id != 0 && Enveloped(data) {
      assert |data[5..]| < |data|;
    }
  }
}
