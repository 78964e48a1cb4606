/**
 The metrics collector: hooks that fire off the VU's goroutine and drains made on
 it, every one of them atomic under the collector's mutex
 (pkg/kafka/metrics.go:104-194, 233-277).
 */
module Collector {
  import opened Prelude
  import opened Metrics

  datatype Role = Writer | Reader

  const API_KEY_PRODUCE: int := 0
  const API_KEY_FETCH: int := 1

  /** The metric handles a role drains into. */
  datatype Handles = Handles(
    dialCount: Metric, dialSeconds: Metric, rwSeconds: Metric, waitSeconds: Metric,
    batchCount: Metric, batchSize: Metric, batchBytes: Metric)

  function HandlesOf(role: Role): Handles {
    match role
    case Writer =>
      Handles(WriterDialCount, WriterDialSeconds, WriterWriteSeconds, WriterWaitSeconds,
              WriterWriteCount, WriterBatchSize, WriterBatchBytes)
    case Reader =>
      Handles(ReaderDialCount, ReaderDialSeconds, ReaderReadSeconds, ReaderWaitSeconds,
              ReaderFetchesCount, ReaderFetchSize, ReaderFetchBytes)
  }

  /** One hook call; durations are whole milliseconds. */
  datatype Hook =
    | BrokerConnect(millis: int, failed: bool)
    | BrokerWrite(key: int, wait: int, took: int, failed: bool)
    | BrokerRead(key: int, wait: int, took: int, failed: bool)
    | ProduceBatch(topic: GoString, records: int, bytes: int)
    | FetchBatch(topic: GoString, records: int, bytes: int)

  datatype State = State(
    role: Role,
    dialCount: int, dialFlushed: int, dialSeconds: seq<int>,
    rwSeconds: seq<int>, waitSeconds: seq<int>,
    batchCount: map<GoString, int>, batchFlushed: map<GoString, int>,
    batchSize: seq<Trend>, batchBytes: seq<Trend>)

  function Init(role: Role): State {
    State(role, 0, 0, [], [], [], map[], map[], [], [])
  }

  /** Does a broker request count for this role? */
  predicate Timed(role: Role, h: Hook) {
    match h
    case BrokerWrite(key, _, _, failed) => role == Writer && key == API_KEY_PRODUCE && !failed
    case BrokerRead(key, _, _, failed) => role == Reader && key == API_KEY_FETCH && !failed
    case _ => false
  }

  function OnHook(s: State, h: Hook): State {
    match h
    case BrokerConnect(millis, failed) =>
      if failed then s else s.(dialCount := s.dialCount + 1, dialSeconds := s.dialSeconds + [millis])
    case BrokerWrite(_, wait, took, _) =>
      if Timed(s.role, h) then s.(rwSeconds := s.rwSeconds + [took], waitSeconds := s.waitSeconds + [wait]) else s
    case BrokerRead(_, wait, took, _) =>
      if Timed(s.role, h) then s.(rwSeconds := s.rwSeconds + [took], waitSeconds := s.waitSeconds + [wait]) else s
    case ProduceBatch(topic, records, bytes) => OnBatch(s, topic, records, bytes)
    case FetchBatch(topic, records, bytes) => OnBatch(s, topic, records, bytes)
  }

  function OnBatch(s: State, topic: GoString, records: int, bytes: int): State {
    s.(batchCount := s.batchCount[topic := Get(s.batchCount, topic) + 1],
       batchSize := s.batchSize + [Trend(topic, records)],
       batchBytes := s.batchBytes + [Trend(topic, bytes)])
  }

  /** The state after several hooks. */
  function AfterHooks(s: State, hs: seq<Hook>): State {
    if hs == [] then s else OnHook(AfterHooks(s, hs[..|hs| - 1]), hs[|hs| - 1])
  }

  /** Batches of a topic not yet drained. */
  function Pending(s: State, t: GoString): int {
    Get(s.batchCount, t) - Get(s.batchFlushed, t)
  }

  function CountSamples(m: Metric, s: State, order: seq<GoString>): Samples {
    if order == [] then []
    else
      var t := order[|order| - 1];
      CountSamples(m, s, order[..|order| - 1])
      + (if Pending(s, t) > 0 then [Sample(m, Some(t), Pending(s, t))] else [])
  }

  function DialSample(s: State): Samples {
    var d := s.dialCount - s.dialFlushed;
    if d > 0 then [Sample(HandlesOf(s.role).dialCount, None, d)] else []
  }

  /** The samples of one drain; order is that of the range over batchCount. */
  function DrainOutput(s: State, order: seq<GoString>): Samples {
    var h := HandlesOf(s.role);
    DialSample(s)
    + AsSamples(h.dialSeconds, s.dialSeconds)
    + AsSamples(h.rwSeconds, s.rwSeconds)
    + AsSamples(h.waitSeconds, s.waitSeconds)
    + CountSamples(h.batchCount, s, order)
    + AsTagged(h.batchSize, s.batchSize)
    + AsTagged(h.batchBytes, s.batchBytes)
  }

  /** batchFlushed once the topics in order have been drained. */
  function Flushed(s: State, order: seq<GoString>): map<GoString, int>
    requires forall i | 0 <= i < |order| :: order[i] in s.batchCount
  {
    if order == [] then s.batchFlushed
    else
      var t := order[|order| - 1];
      var m := Flushed(s, order[..|order| - 1]);
      if Pending(s, t) > 0 then m[t := s.batchCount[t]] else m
  }

  function Drained(s: State, order: seq<GoString>): State
    requires IsOrder(order, s.batchCount.Keys)
  {
    s.(dialFlushed := if s.dialCount - s.dialFlushed > 0 then s.dialCount else s.dialFlushed,
       dialSeconds := [], rwSeconds := [], waitSeconds := [],
       batchFlushed := Flushed(s, order), batchSize := [], batchBytes := [])
  }

  /** The collector object. Each method is one critical section. */
  class MetricsCollector {
    const role: Role
    var dialCount: int
    var dialFlushed: int
    var dialSeconds: seq<int>
    var rwSeconds: seq<int>
    var waitSeconds: seq<int>
    var batchCount: map<GoString, int>
    var batchFlushed: map<GoString, int>
    var batchSize: seq<Trend>
    var batchBytes: seq<Trend>

    function View(): State
      reads this
    {
      State(role, dialCount, dialFlushed, dialSeconds, rwSeconds, waitSeconds,
            batchCount, batchFlushed, batchSize, batchBytes)
    }

    constructor (role: Role)
      ensures View() == Init(role)
    {
      this.role := role;
      dialCount, dialFlushed := 0, 0;
      dialSeconds, rwSeconds, waitSeconds := [], [], [];
      batchCount, batchFlushed := map[], map[];
      batchSize, batchBytes := [], [];
    }

    method OnBrokerConnect(millis: int, failed: bool)
      modifies this
      ensures View() == OnHook(old(View()), BrokerConnect(millis, failed))
    {
      if failed {
        return;
      }
      dialCount := dialCount + 1;
      dialSeconds := dialSeconds + [millis];
    }

    method OnBrokerWrite(key: int, wait: int, took: int, failed: bool)
      modifies this
      ensures View() == OnHook(old(View()), BrokerWrite(key, wait, took, failed))
    {
      if role != Writer || key != API_KEY_PRODUCE || failed {
        return;
      }
      rwSeconds := rwSeconds + [took];
      waitSeconds := waitSeconds + [wait];
    }

    method OnBrokerRead(key: int, wait: int, took: int, failed: bool)
      modifies this
      ensures View() == OnHook(old(View()), BrokerRead(key, wait, took, failed))
    {
      if role != Reader || key != API_KEY_FETCH || failed {
        return;
      }
      rwSeconds := rwSeconds + [took];
      waitSeconds := waitSeconds + [wait];
    }

    method OnProduceBatchWritten(topic: GoString, records: int, bytes: int)
      modifies this
      ensures View() == OnHook(old(View()), ProduceBatch(topic, records, bytes))
    {
      batchCount := batchCount[topic := Get(batchCount, topic) + 1];
      batchSize := batchSize + [Trend(topic, records)];
      batchBytes := batchBytes + [Trend(topic, bytes)];
    }

    method OnFetchBatchRead(topic: GoString, records: int, bytes: int)
      modifies this
      ensures View() == OnHook(old(View()), FetchBatch(topic, records, bytes))
    {
      batchCount := batchCount[topic := Get(batchCount, topic) + 1];
      batchSize := batchSize + [Trend(topic, records)];
      batchBytes := batchBytes + [Trend(topic, bytes)];
    }

    /** The range over batchCount in drainHooks: one sample per topic with batches
        pending, in whatever order the range takes. */
    method DrainBatchCounts(out: Samples, m: Metric) returns (r: Samples, order: seq<GoString>)
      modifies this`batchFlushed
      ensures IsOrder(order, batchCount.Keys)
      ensures r == out + CountSamples(m, old(View()), order)
      ensures batchFlushed == Flushed(old(View()), order)
    {
      ghost var s := View();
      r := out;
      order := RangeOrder(batchCount.Keys);
      for i := 0 to |order|
        invariant Ranged(s, m, out, order[..i], r, batchFlushed)
      {
        var topic := order[i];
        RangeStep(s, m, out, order, i, r, batchFlushed);
        var d := batchCount[topic] - Get(batchFlushed, topic);
        if d > 0 {
          r := r + [Sample(m, Some(topic), d)];
          batchFlushed := batchFlushed[topic := batchCount[topic]];
        }
      }
      assert order[..|order|] == order;
    }

    /** The untagged part of drainHooks. */
    method DrainTimings(out: Samples, h: Handles) returns (r: Samples)
      requires h == HandlesOf(role)
      modifies this`dialFlushed, this`dialSeconds, this`rwSeconds, this`waitSeconds
      ensures r == out + DialSample(old(View())) + AsSamples(h.dialSeconds, old(dialSeconds))
                   + AsSamples(h.rwSeconds, old(rwSeconds)) + AsSamples(h.waitSeconds, old(waitSeconds))
      ensures dialSeconds == [] && rwSeconds == [] && waitSeconds == []
      ensures dialFlushed == if dialCount - old(dialFlushed) > 0 then dialCount else old(dialFlushed)
    {
      r := out;
      if dialCount - dialFlushed > 0 {
        r := r + [Sample(h.dialCount, None, dialCount - dialFlushed)];
        dialFlushed := dialCount;
      }
      r := AddValues(r, h.dialSeconds, dialSeconds);
      r := AddValues(r, h.rwSeconds, rwSeconds);
      r := AddValues(r, h.waitSeconds, waitSeconds);
      dialSeconds, rwSeconds, waitSeconds := [], [], [];
    }

    /** drainHooks: appends to out in the order the range over batchCount took. */
    method DrainHooks(out: Samples) returns (r: Samples, order: seq<GoString>)
      modifies this
      ensures IsOrder(order, old(batchCount).Keys)
      ensures r == out + DrainOutput(old(View()), order)
      ensures View() == Drained(old(View()), order)
    {
      var h := HandlesOf(role);
      ghost var s := View();
      r := DrainTimings(out, h);
      ghost var mid := View();
      r, order := DrainBatchCounts(r, h.batchCount);
      SameCounts(s, mid, h.batchCount, order);
      r := AddTrends(r, h.batchSize, batchSize);
      r := AddTrends(r, h.batchBytes, batchBytes);
      batchSize, batchBytes := [], [];
      Reassociate(out, DialSample(s), AsSamples(h.dialSeconds, s.dialSeconds), AsSamples(h.rwSeconds, s.rwSeconds),
                  AsSamples(h.waitSeconds, s.waitSeconds), CountSamples(h.batchCount, s, order),
                  AsTagged(h.batchSize, s.batchSize), AsTagged(h.batchBytes, s.batchBytes));
    }

    /** flush: nothing happens without VU state; otherwise the call's own samples
        come first, then the drained ones. */
    method Flush(hasState: bool, callSite: Samples) returns (built: Samples, order: seq<GoString>)
      modifies this
      ensures !hasState ==> built == [] && View() == old(View())
      ensures hasState ==>
                IsOrder(order, old(batchCount).Keys)
                && built == callSite + DrainOutput(old(View()), order)
                && View() == Drained(old(View()), order)
    {
      order := [];
      if !hasState {
        return [], order;
      }
      built, order := DrainHooks(callSite);
    }
  }

  /** Several hooks fire, one after the other. */
  method FireHooks(mc: MetricsCollector, hs: seq<Hook>)
    modifies mc
    ensures mc.View() == AfterHooks(old(mc.View()), hs)
  {
    for i := 0 to |hs|
      invariant mc.View() == AfterHooks(old(mc.View()), hs[..i])
    {
      assert hs[..i + 1][..i] == hs[..i];
      match hs[i]
      case BrokerConnect(millis, failed) => mc.OnBrokerConnect(millis, failed);
      case BrokerWrite(key, wait, took, failed) => mc.OnBrokerWrite(key, wait, took, failed);
      case BrokerRead(key, wait, took, failed) => mc.OnBrokerRead(key, wait, took, failed);
      case ProduceBatch(topic, records, bytes) => mc.OnProduceBatchWritten(topic, records, bytes);
      case FetchBatch(topic, records, bytes) => mc.OnFetchBatchRead(topic, records, bytes);
    }
    assert hs[..|hs|] == hs;
  }

  lemma {:induction false} AfterHooksConcat(s: State, a: seq<Hook>, b: seq<Hook>)
    ensures AfterHooks(s, a + b) == AfterHooks(AfterHooks(s, a), b)
  {
    if b == [] {
      assert a + b == a;
    } else {
      AfterHooksConcat(s, a, b[..|b| - 1]);
      assert (a + b)[..|a + b| - 1] == a + b[..|b| - 1];
    }
  }

  /** Batch counts do not depend on the untagged counters and buffers. */
  lemma {:induction false} SameCounts(s: State, s': State, m: Metric, order: seq<GoString>)
    requires s.batchCount == s'.batchCount && s.batchFlushed == s'.batchFlushed
    requires forall i | 0 <= i < |order| :: order[i] in s.batchCount
    ensures CountSamples(m, s, order) == CountSamples(m, s', order)
    ensures Flushed(s, order) == Flushed(s', order)
  {
    if order != [] {
      SameCounts(s, s', m, order[..|order| - 1]);
    }
  }

  lemma {:induction false} NotYetFlushed(s: State, order: seq<GoString>, t: GoString)
    requires forall i | 0 <= i < |order| :: order[i] in s.batchCount && order[i] != t
    ensures Get(Flushed(s, order), t) == Get(s.batchFlushed, t)
  {
    if order != [] {
      NotYetFlushed(s, order[..|order| - 1], t);
    }
  }

  lemma CountsExtend(s: State, m: Metric, order: seq<GoString>, t: GoString)
    requires t in s.batchCount && forall i | 0 <= i < |order| :: order[i] in s.batchCount && order[i] != t
    ensures s.batchCount[t] - Get(Flushed(s, order), t) == Pending(s, t)
    ensures CountSamples(m, s, order + [t])
            == CountSamples(m, s, order) + (if Pending(s, t) > 0 then [Sample(m, Some(t), Pending(s, t))] else [])
    ensures Flushed(s, order + [t])
            == if Pending(s, t) > 0 then Flushed(s, order)[t := s.batchCount[t]] else Flushed(s, order)
  {
    NotYetFlushed(s, order, t);
    assert (order + [t])[..|order|] == order;
  }

  /** What r and flushed are once the topics in order have been ranged over. */
  ghost predicate Ranged(
    s: State, m: Metric, out: Samples, order: seq<GoString>, r: Samples, flushed: map<GoString, int>)
  {
    && (forall i | 0 <= i < |order| :: order[i] in s.batchCount)
    && r == out + CountSamples(m, s, order)
    && flushed == Flushed(s, order)
  }

  lemma RangeStep(
    s: State, m: Metric, out: Samples, order: seq<GoString>, i: nat, r: Samples, flushed: map<GoString, int>)
    requires IsOrder(order, s.batchCount.Keys) && i < |order| && Ranged(s, m, out, order[..i], r, flushed)
    ensures var t, d := order[i], s.batchCount[order[i]] - Get(flushed, order[i]);
            Ranged(s, m, out, order[..i + 1], if d > 0 then r + [Sample(m, Some(t), d)] else r,
                   if d > 0 then flushed[t := s.batchCount[t]] else flushed)
  {
    CountsExtend(s, m, order[..i], order[i]);
    assert order[..i + 1] == order[..i] + [order[i]];
  }

  lemma Reassociate(
    o: Samples, a: Samples, b: Samples, c: Samples, d: Samples, e: Samples, f: Samples, g: Samples)
    ensures o + a + b + c + d + e + f + g == o + (a + b + c + d + e + f + g)
  {
  }

  method AddValues(out: Samples, m: Metric, values: seq<int>) returns (r: Samples)
    ensures r == out + AsSamples(m, values)
  {
    r := out;
    for i := 0 to |values|
      invariant r == out + AsSamples(m, values)[..i]
    {
      r := r + [Sample(m, None, values[i])];
    }
  }

  method AddTrends(out: Samples, m: Metric, trends: seq<Trend>) returns (r: Samples)
    ensures r == out + AsTagged(m, trends)
  {
    r := out;
    for i := 0 to |trends|
      invariant r == out + AsTagged(m, trends)[..i]
    {
      r := r + [Sample(m, Some(trends[i].topic), trends[i].value)];
    }
  }
}
