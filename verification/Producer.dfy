/** Writer.Produce, Writer.Close and record marshaling (pkg/kafka/producer.go:178-267). */
module Producer {
  import opened Prelude
  import opened Metrics
  import opened Collector
  import opened CallSite
  import AvroLaws
  import AvroValues
  import C = Consumer

  type Value = AvroValues.Value
  type Header = C.Header

  datatype ProduceMessage = ProduceMessage(
    topic: GoString, key: Value, value: Value, headers: map<GoString, Value>, time: Option<int>)

  datatype Record = Record(
    topic: GoString, key: Bytes, value: Bytes, headers: seq<Header>, timestamp: Option<int>)

  /** toBytes; format is Go's default formatting of any other value. */
  function ToBytes(format: Value -> Bytes, v: Value): Bytes {
    match v
    case Nil => []
    case Str(s) => s
    case _ =>
      var b := AvroValues.CoerceBytes(v);
      if b.Some? then b.value else format(v)
  }

  /** b is what a key, a value or a header value is sent as: nothing for nil, a string's
      own bytes, the content of a byte container, the bytes a list of byte-sized
      numbers means, and whatever Go's formatting makes of anything else. */
  ghost predicate SentAs(format: Value -> Bytes, v: Value, b: Bytes) {
    match v
    case Nil => b == []
    case Str(s) => b == s
    case Slice(bs) => b == bs
    case ByteArray(bs) => b == bs
    case ArrayBuffer(bs) => b == bs
    case List(items) =>
      if forall i | 0 <= i < |items| :: AvroLaws.ByteSized(items[i]) then
        AvroLaws.BytesMeaning(b) == AvroLaws.MeaningOf(v)
      else b == format(v)
    case _ => b == format(v)
  }

  lemma ToBytesExact(format: Value -> Bytes, v: Value)
    ensures SentAs(format, v, ToBytes(format, v))
  {
    AvroLaws.CoerceBytesExact(v);
  }

  function HeaderList(format: Value -> Bytes, headers: map<GoString, Value>, order: seq<GoString>): seq<Header>
    requires forall i | 0 <= i < |order| :: order[i] in headers
  {
    seq(|order|, i requires 0 <= i < |order| => C.Header(order[i], ToBytes(format, headers[order[i]])))
  }

  /** r carries m; order is that of its headers. */
  ghost predicate Carries(format: Value -> Bytes, m: ProduceMessage, r: Record, order: seq<GoString>) {
    && r.topic == m.topic && r.timestamp == m.time
    && SentAs(format, m.key, r.key) && SentAs(format, m.value, r.value)
    && |r.headers| == |order|
    && forall i | 0 <= i < |order| ::
         order[i] in m.headers && r.headers[i].key == order[i] && SentAs(format, m.headers[order[i]], r.headers[i].value)
  }

  /** marshalRecord; order is that of the range over the headers. */
  method MarshalRecord(format: Value -> Bytes, m: ProduceMessage) returns (r: Record, order: seq<GoString>)
    ensures IsOrder(order, m.headers.Keys) && Carries(format, m, r, order)
  {
    order := RangeOrder(m.headers.Keys);
    var headers: seq<Header> := [];
    for i := 0 to |order|
      invariant headers == HeaderList(format, m.headers, order)[..i]
    {
      headers := headers + [C.Header(order[i], ToBytes(format, m.headers[order[i]]))];
    }
    r := Record(m.topic, ToBytes(format, m.key), ToBytes(format, m.value), headers, m.time);
    ToBytesExact(format, m.key);
    ToBytesExact(format, m.value);
    forall i | 0 <= i < |order|
      ensures SentAs(format, m.headers[order[i]], r.headers[i].value)
    {
      ToBytesExact(format, m.headers[order[i]]);
    }
  }

  /** The keys of a message's headers, each with what its value is sent as. */
  ghost predicate HeadersSent(format: Value -> Bytes, headers: map<GoString, Value>, got: map<GoString, Bytes>) {
    && got.Keys == headers.Keys
    && forall k | k in headers :: SentAs(format, headers[k], got[k])
  }

  /** Headers survive the trip: whatever order the map is ranged in, the consumer
      decodes the header list to the same keys with what their values are sent as. */
  lemma HeadersRoundTrip(format: Value -> Bytes, m: ProduceMessage, r: Record, order: seq<GoString>)
    requires IsOrder(order, m.headers.Keys) && Carries(format, m, r, order)
    ensures HeadersSent(format, m.headers, C.DecodeHeaders(r.headers))
  {
    var got := C.DecodeHeaders(r.headers);
    C.HeadersExact(r.headers);
    forall k | k in got
      ensures k in m.headers && SentAs(format, m.headers[k], got[k])
    {
      var i: nat :| C.LastHeader(r.headers, k, i) && got[k] == r.headers[i].value;
      assert order[i] == k;
    }
    forall k | k in m.headers
      ensures k in got
    {
      var i :| 0 <= i < |order| && order[i] == k;
      assert r.headers[i].key == k;
    }
  }

  /** A string header is read back as that string. */
  lemma StringHeader(format: Value -> Bytes, m: ProduceMessage, r: Record, order: seq<GoString>, k: GoString)
    requires IsOrder(order, m.headers.Keys) && Carries(format, m, r, order)
    requires k in m.headers && m.headers[k].Str?
    ensures k in C.DecodeHeaders(r.headers) && C.DecodeHeaders(r.headers)[k] == m.headers[k].s
  {
    HeadersRoundTrip(format, m, r, order);
  }

  // ----- accounting

  /** One produce result: the record and its error, if it failed. */
  datatype Ack = Ack(record: Record, err: Option<string>)

  /** One result of ProduceSync: which record it is about, and its error. */
  datatype Delivery = Delivery(index: nat, err: Option<string>)

  /** ProduceSync gives every record exactly one result, in some order. */
  predicate OneEach(ds: seq<Delivery>, n: nat) {
    && |ds| == n
    && (forall i | 0 <= i < |ds| :: ds[i].index < n)
    && (forall i, j | 0 <= i < j < |ds| :: ds[i].index != ds[j].index)
  }

  function AcksOf(records: seq<Record>, ds: seq<Delivery>): seq<Ack>
    requires OneEach(ds, |records|)
  {
    seq(|ds|, i requires 0 <= i < |ds| => Ack(records[ds[i].index], ds[i].err))
  }

  /** Every record gets the one result about it, with its own error. */
  lemma AcksExact(records: seq<Record>, ds: seq<Delivery>, j: nat)
    requires OneEach(ds, |records|) && j < |records|
    ensures exists i :: 0 <= i < |ds| && ds[i].index == j && AcksOf(records, ds)[i] == Ack(records[j], ds[i].err)
  {
    EveryIndexDelivered(ds, |records|, j);
    var i :| 0 <= i < |ds| && ds[i].index == j;
    assert AcksOf(records, ds)[i] == Ack(records[j], ds[i].err);
  }

  function IndicesOf(ds: seq<Delivery>): set<nat> {
    set i | 0 <= i < |ds| :: ds[i].index
  }

  /** Different indices are as many as the results. */
  lemma {:induction false} IndexCount(ds: seq<Delivery>)
    requires forall i, j | 0 <= i < j < |ds| :: ds[i].index != ds[j].index
    ensures |IndicesOf(ds)| == |ds|
  {
    if ds != [] {
      var init, last := ds[..|ds| - 1], ds[|ds| - 1];
      IndexCount(init);
      assert forall i | 0 <= i < |init| :: init[i] == ds[i];
      assert IndicesOf(ds) == IndicesOf(init) + {last.index};
    }
  }

  function Below(n: nat): (r: set<nat>)
    ensures |r| == n && forall k: nat :: k in r <==> k < n
  {
    if n == 0 then {} else Below(n - 1) + {n - 1}
  }

  lemma EveryIndexDelivered(ds: seq<Delivery>, n: nat, j: nat)
    requires OneEach(ds, n) && j < n
    ensures exists i :: 0 <= i < |ds| && ds[i].index == j
  {
    IndexCount(ds);
    var got, all := IndicesOf(ds), Below(n);
    assert got <= all;
    assert all == got + (all - got) && |all| == |got| + |all - got|;
    assert j in all;
    assert |all - got| == 0;
    assert all - got == {};
    assert j in got;
  }

  function TopicOf(r: Record, defaultTopic: GoString): GoString {
    if r.topic == [] then defaultTopic else r.topic
  }

  function Size(r: Record): nat {
    |r.key| + |r.value|
  }

  datatype Account = Account(counts: map<GoString, int>, bytes: map<GoString, int>, errCount: nat)

  /** The counts, bytes and errors of some results. */
  function AccountOf(acks: seq<Ack>, defaultTopic: GoString): Account {
    if acks == [] then Account(map[], map[], 0)
    else
      var a, ack := AccountOf(acks[..|acks| - 1], defaultTopic), acks[|acks| - 1];
      if ack.err.Some? then a.(errCount := a.errCount + 1)
      else
        var t := TopicOf(ack.record, defaultTopic);
        a.(counts := a.counts[t := Get(a.counts, t) + 1],
           bytes := a.bytes[t := Get(a.bytes, t) + Size(ack.record)])
  }

  /** FirstErr. */
  function FirstErr(acks: seq<Ack>): Option<string> {
    if acks == [] then None
    else if acks[0].err.Some? then acks[0].err
    else FirstErr(acks[1..])
  }

  const NOT_IN_VU := "produce must be called in the VU context"
  const CLOSED := "writer is closed"

  class Writer {
    var open: bool
    const collector: MetricsCollector
    const defaultTopic: GoString
    const format: Value -> Bytes

    constructor (collector: MetricsCollector, defaultTopic: GoString, format: Value -> Bytes)
      ensures open && this.collector == collector && this.defaultTopic == defaultTopic && this.format == format
    {
      open, this.collector, this.defaultTopic, this.format := true, collector, defaultTopic, format;
    }

    /** The records of a batch, in order, up to the order of their headers. */
    ghost predicate Marshals(messages: seq<ProduceMessage>, records: seq<Record>) {
      |records| == |messages| && forall i | 0 <= i < |messages| ::
        var m, r := messages[i], records[i];
        r.topic == m.topic && SentAs(format, m.key, r.key) && SentAs(format, m.value, r.value)
        && r.timestamp == m.time
        && HeadersSent(format, m.headers, C.DecodeHeaders(r.headers))
    }

    method Marshal(messages: seq<ProduceMessage>) returns (records: seq<Record>)
      ensures Marshals(messages, records)
    {
      records := [];
      for i := 0 to |messages|
        invariant Marshals(messages[..i], records)
      {
        var r, order := MarshalRecord(format, messages[i]);
        HeadersRoundTrip(format, messages[i], r, order);
        records := records + [r];
      }
      assert messages[..|messages|] == messages;
    }

    /** Produce's loop over the results. */
    method Count(acks: seq<Ack>) returns (a: Account)
      ensures a == AccountOf(acks, defaultTopic)
    {
      var msgCount: map<GoString, int>, msgBytes: map<GoString, int>, errCount := map[], map[], 0;
      for i := 0 to |acks|
        invariant AccountOf(acks[..i], defaultTopic) == Account(msgCount, msgBytes, errCount)
      {
        assert acks[..i + 1][..i] == acks[..i];
        if acks[i].err.Some? {
          errCount := errCount + 1;
          continue;
        }
        var topic := acks[i].record.topic;
        if topic == [] {
          topic := defaultTopic;
        }
        msgCount := msgCount[topic := Get(msgCount, topic) + 1];
        msgBytes := msgBytes[topic := Get(msgBytes, topic) + (|acks[i].record.key| + |acks[i].record.value|)];
      }
      assert acks[..|acks|] == acks;
      return Account(msgCount, msgBytes, errCount);
    }

    /** Produce. ds are ProduceSync's results and hooks fired up to its return;
        records are the messages as marshaled. */
    method Produce(hasState: bool, messages: seq<ProduceMessage>, ds: seq<Delivery>, hooks: seq<Hook>)
      returns (err: Option<string>, built: Samples, o: Orders, records: seq<Record>)
      requires hasState && open ==> OneEach(ds, |messages|)
      modifies collector
      ensures !hasState || !open ==>
                err == Some(if !hasState then NOT_IN_VU else CLOSED)
                && built == [] && collector.View() == old(collector.View())
      ensures hasState && open ==>
                Marshals(messages, records)
                && var acks := AcksOf(records, ds);
                var a := AccountOf(acks, defaultTopic);
                err == FirstErr(acks) && (err.Some? <==> a.errCount > 0)
                && IsOrder(o.site, a.counts.Keys)
                && Flushes(AfterHooks(old(collector.View()), hooks), collector.View(),
                           ProduceSite(a.counts, a.bytes, a.errCount, o.site), built, o)
    {
      built, o, records := [], Orders([], []), [];
      if !hasState {
        return Some(NOT_IN_VU), built, o, records;
      }
      if !open {
        return Some(CLOSED), built, o, records;
      }
      records := Marshal(messages);
      var acks := AcksOf(records, ds);
      FireHooks(collector, hooks);
      var a := Count(acks);
      built, o := FlushProduce(collector, true, a.counts, a.bytes, a.errCount);
      ErrorsCounted(acks, defaultTopic);
      err := FirstErr(acks);
    }

    /** Close: a last drain, once; hooks are those that fired up to the end of the
        client's own flush. */
    method Close(hasState: bool, hooks: seq<Hook>) returns (built: Samples, drain: seq<GoString>)
      modifies this, collector
      ensures !open
      ensures !old(open) ==> built == [] && collector.View() == old(collector.View())
      ensures old(open) && hasState ==>
                var s := AfterHooks(old(collector.View()), hooks);
                IsOrder(drain, s.batchCount.Keys)
                && built == DrainOutput(s, drain) && collector.View() == Drained(s, drain)
      ensures old(open) && !hasState ==>
                built == [] && collector.View() == AfterHooks(old(collector.View()), hooks)
    {
      built, drain := [], [];
      if !open {
        return;
      }
      FireHooks(collector, hooks);
      built, drain := collector.Flush(hasState, []);
      open := false;
    }
  }

  /** The results with an error. */
  function Failures(acks: seq<Ack>): nat {
    if acks == [] then 0 else Failures(acks[..|acks| - 1]) + (if acks[|acks| - 1].err.Some? then 1 else 0)
  }

  /** A success, on this topic or on none when it is the default. */
  predicate ChargedTo(a: Ack, defaultTopic: GoString, t: GoString) {
    a.err.None? && (if a.record.topic != [] then a.record.topic == t else defaultTopic == t)
  }

  /** The successes charged to a topic. */
  function Successes(acks: seq<Ack>, defaultTopic: GoString, t: GoString): nat {
    if acks == [] then 0
    else
      Successes(acks[..|acks| - 1], defaultTopic, t) + (if ChargedTo(acks[|acks| - 1], defaultTopic, t) then 1 else 0)
  }

  /** The bytes of the keys and values of the successes charged to a topic. */
  function SuccessBytes(acks: seq<Ack>, defaultTopic: GoString, t: GoString): nat {
    if acks == [] then 0
    else
      var a := acks[|acks| - 1];
      SuccessBytes(acks[..|acks| - 1], defaultTopic, t)
      + (if ChargedTo(a, defaultTopic, t) then |a.record.key| + |a.record.value| else 0)
  }

  /** The error of the first result that has one. */
  lemma {:induction false} FirstErrAt(acks: seq<Ack>)
    ensures FirstErr(acks).None? ==> forall i | 0 <= i < |acks| :: acks[i].err.None?
    ensures FirstErr(acks).Some? ==>
              exists i :: 0 <= i < |acks| && acks[i].err == FirstErr(acks) && forall j | 0 <= j < i :: acks[j].err.None?
  {
    if acks != [] {
      if acks[0].err.Some? {
        assert acks[0].err == FirstErr(acks);
      } else {
        FirstErrAt(acks[1..]);
        assert forall j | 1 <= j < |acks| :: acks[j] == acks[1..][j - 1];
        if FirstErr(acks).Some? {
          var i :| 0 <= i < |acks[1..]| && acks[1..][i].err == FirstErr(acks)
                   && forall j | 0 <= j < i :: acks[1..][j].err.None?;
          assert acks[i + 1].err == FirstErr(acks);
        }
      }
    }
  }

  lemma {:induction false} ErrCountAt(acks: seq<Ack>, defaultTopic: GoString)
    ensures AccountOf(acks, defaultTopic).errCount == Failures(acks)
    ensures Failures(acks) > 0 <==> exists i :: 0 <= i < |acks| && acks[i].err.Some?
  {
    if acks != [] {
      var init := acks[..|acks| - 1];
      ErrCountAt(init, defaultTopic);
      if i :| 0 <= i < |acks| && acks[i].err.Some? {
        assert i < |init| ==> init[i].err.Some?;
      }
      if i :| 0 <= i < |init| && init[i].err.Some? {
        assert acks[i].err.Some?;
      }
    }
  }

  /** Produce fails exactly when some result failed. */
  lemma ErrorsCounted(acks: seq<Ack>, defaultTopic: GoString)
    ensures FirstErr(acks).Some? <==> AccountOf(acks, defaultTopic).errCount > 0
  {
    FirstErrAt(acks);
    ErrCountAt(acks, defaultTopic);
  }

  lemma {:induction false} AccountExact(acks: seq<Ack>, defaultTopic: GoString, t: GoString)
    ensures var a := AccountOf(acks, defaultTopic);
            a.counts.Keys == a.bytes.Keys
            && Get(a.counts, t) == Successes(acks, defaultTopic, t)
            && Get(a.bytes, t) == SuccessBytes(acks, defaultTopic, t)
            && a.errCount == Failures(acks)
  {
    if acks != [] {
      AccountExact(acks[..|acks| - 1], defaultTopic, t);
    }
  }

  /** The counters of one produce call, hooks included, are exactly its successes
      per topic, their bytes, and its failures. */
  lemma ProduceReports(
    acks: seq<Ack>, defaultTopic: GoString, order: seq<GoString>, s: State, drain: seq<GoString>, t: GoString)
    requires IsOrder(order, AccountOf(acks, defaultTopic).counts.Keys)
    ensures var a := AccountOf(acks, defaultTopic);
            var out := ProduceSite(a.counts, a.bytes, a.errCount, order) + DrainOutput(s, drain);
            Sum(out, WriterMessageCount, Some(t)) == Successes(acks, defaultTopic, t)
            && Sum(out, WriterMessageBytes, Some(t)) == SuccessBytes(acks, defaultTopic, t)
            && Sum(out, WriterErrorCount, None) == Failures(acks)
  {
    var a := AccountOf(acks, defaultTopic);
    var site := ProduceSite(a.counts, a.bytes, a.errCount, order);
    AccountExact(acks, defaultTopic, t);
    ProduceSiteReads(a.counts, a.bytes, a.errCount, order, t);
    SiteOnly(site, s, drain, WriterMessageCount, Some(t));
    SiteOnly(site, s, drain, WriterMessageBytes, Some(t));
    SiteOnly(site, s, drain, WriterErrorCount, None);
  }

  /** The sum of a map's values over some topics. */
  function Across(counts: map<GoString, int>, order: seq<GoString>): int {
    if order == [] then 0 else Across(counts, order[..|order| - 1]) + Get(counts, order[|order| - 1])
  }

  lemma {:induction false} AcrossBump(counts: map<GoString, int>, order: seq<GoString>, t: GoString)
    requires forall i, j | 0 <= i < j < |order| :: order[i] != order[j]
    ensures Across(counts[t := Get(counts, t) + 1], order)
            == Across(counts, order) + (if t in order then 1 else 0)
  {
    if order != [] {
      AcrossBump(counts, order[..|order| - 1], t);
      assert order == order[..|order| - 1] + [order[|order| - 1]];
    }
  }

  lemma {:induction false} AcrossEmpty(order: seq<GoString>)
    ensures Across(map[], order) == 0
  {
    if order != [] {
      AcrossEmpty(order[..|order| - 1]);
    }
  }

  lemma {:induction false} AcrossResults(acks: seq<Ack>, defaultTopic: GoString, order: seq<GoString>)
    requires forall i, j | 0 <= i < j < |order| :: order[i] != order[j]
    requires forall i | 0 <= i < |acks| && acks[i].err.None? :: TopicOf(acks[i].record, defaultTopic) in order
    ensures Across(AccountOf(acks, defaultTopic).counts, order) + Failures(acks) == |acks|
  {
    if acks == [] {
      AcrossEmpty(order);
    } else {
      var init, last := acks[..|acks| - 1], acks[|acks| - 1];
      AcrossResults(init, defaultTopic, order);
      if last.err.None? {
        AcrossBump(AccountOf(init, defaultTopic).counts, order, TopicOf(last.record, defaultTopic));
      }
    }
  }

  lemma {:induction false} ChargedTopics(acks: seq<Ack>, defaultTopic: GoString)
    ensures forall i | 0 <= i < |acks| && acks[i].err.None? ::
              TopicOf(acks[i].record, defaultTopic) in AccountOf(acks, defaultTopic).counts
  {
    if acks != [] {
      ChargedTopics(acks[..|acks| - 1], defaultTopic);
      assert forall i | 0 <= i < |acks| - 1 :: acks[i] == acks[..|acks| - 1][i];
    }
  }

  /** Every message is accounted for once: the counts over all topics and the
      error count add up to the number of messages. */
  lemma EveryMessageCounted(records: seq<Record>, ds: seq<Delivery>, defaultTopic: GoString, order: seq<GoString>)
    requires OneEach(ds, |records|)
    requires IsOrder(order, AccountOf(AcksOf(records, ds), defaultTopic).counts.Keys)
    ensures var a := AccountOf(AcksOf(records, ds), defaultTopic);
            Across(a.counts, order) + a.errCount == |records|
  {
    var acks := AcksOf(records, ds);
    ChargedTopics(acks, defaultTopic);
    AcrossResults(acks, defaultTopic, order);
    ErrCountAt(acks, defaultTopic);
  }
}
