/** Metric samples and the sums k6 makes of them (pkg/kafka/metrics.go:22-49, 98-102, 198-204). */
module Metrics {
  import opened Prelude

  datatype Metric =
    | WriterMessageCount | WriterMessageBytes | WriterWriteCount | WriterErrorCount
    | WriterBatchSize | WriterBatchBytes | WriterDialCount | WriterDialSeconds
    | WriterWriteSeconds | WriterWaitSeconds
    | ReaderMessageCount | ReaderMessageBytes | ReaderFetchesCount | ReaderErrorCount
    | ReaderTimeoutsCount | ReaderFetchSize | ReaderFetchBytes | ReaderLag | ReaderOffset
    | ReaderDialCount | ReaderDialSeconds | ReaderReadSeconds | ReaderWaitSeconds

  /** A sample and its topic tag, if it has one. */
  datatype Sample = Sample(metric: Metric, topic: Option<GoString>, value: int)

  /** perTopicTrend. */
  datatype Trend = Trend(topic: GoString, value: int)

  type Samples = seq<Sample>

  /** The samples of one metric, in order. */
  function Emitted(out: Samples, m: Metric): Samples {
    if out == [] then []
    else (if out[0].metric == m then [out[0]] else []) + Emitted(out[1..], m)
  }

  /** What k6 adds up for a counter under one tag. */
  function Sum(out: Samples, m: Metric, topic: Option<GoString>): int {
    if out == [] then 0
    else (if out[0].metric == m && out[0].topic == topic then out[0].value else 0) + Sum(out[1..], m, topic)
  }

  function AsSamples(m: Metric, values: seq<int>): Samples {
    seq(|values|, i requires 0 <= i < |values| => Sample(m, None, values[i]))
  }

  function AsTagged(m: Metric, trends: seq<Trend>): Samples {
    seq(|trends|, i requires 0 <= i < |trends| => Sample(m, Some(trends[i].topic), trends[i].value))
  }

  function CountTopic(trends: seq<Trend>, t: GoString): nat {
    if trends == [] then 0
    else CountTopic(trends[..|trends| - 1], t) + (if trends[|trends| - 1].topic == t then 1 else 0)
  }

  /** How many samples carry a tag. */
  function CountTag(out: Samples, topic: Option<GoString>): nat {
    if out == [] then 0
    else CountTag(out[..|out| - 1], topic) + (if out[|out| - 1].topic == topic then 1 else 0)
  }

  function Get(m: map<GoString, int>, t: GoString): int {
    if t in m then m[t] else 0
  }

  /** One of the orders in which Go may range over a map with these keys. */
  predicate IsOrder(order: seq<GoString>, keys: set<GoString>) {
    && (forall i, j | 0 <= i < j < |order| :: order[i] != order[j])
    && (forall k | k in keys :: k in order)
    && (forall i | 0 <= i < |order| :: order[i] in keys)
  }

  /** The order some range over a map with these keys takes; any order is possible. */
  method RangeOrder(keys: set<GoString>) returns (order: seq<GoString>)
    ensures IsOrder(order, keys)
  {
    order := [];
    var todo := keys;
    while todo != {}
      invariant todo <= keys && IsOrder(order, keys - todo)
      decreases |todo|
    {
      var k :| k in todo;
      OrderExtends(order, keys - todo, k);
      assert keys - todo + {k} == keys - (todo - {k});
      order, todo := order + [k], todo - {k};
    }
    assert keys - todo == keys;
  }

  lemma OrderExtends(order: seq<GoString>, done: set<GoString>, t: GoString)
    requires IsOrder(order, done) && t !in done
    ensures IsOrder(order + [t], done + {t})
  {
  }

  predicate AllOf(out: Samples, m: Metric) {
    forall i | 0 <= i < |out| :: out[i].metric == m
  }

  lemma {:induction false} EmittedConcat(a: Samples, b: Samples, m: Metric)
    ensures Emitted(a + b, m) == Emitted(a, m) + Emitted(b, m)
  {
    if a == [] {
      assert a + b == b;
    } else {
      EmittedConcat(a[1..], b, m);
      assert (a + b)[1..] == a[1..] + b && (a + b)[0] == a[0];
      var head := if a[0].metric == m then [a[0]] else [];
      assert head + (Emitted(a[1..], m) + Emitted(b, m)) == (head + Emitted(a[1..], m)) + Emitted(b, m);
    }
  }

  lemma {:induction false} SumConcat(a: Samples, b: Samples, m: Metric, topic: Option<GoString>)
    ensures Sum(a + b, m, topic) == Sum(a, m, topic) + Sum(b, m, topic)
  {
    if a == [] {
      assert a + b == b;
    } else {
      SumConcat(a[1..], b, m, topic);
      assert (a + b)[1..] == a[1..] + b;
    }
  }

  lemma {:induction false} EmittedUniform(out: Samples, m: Metric, n: Metric)
    requires AllOf(out, m)
    ensures Emitted(out, n) == if m == n then out else []
  {
    if out != [] {
      EmittedUniform(out[1..], m, n);
      assert out == [out[0]] + out[1..];
    }
  }

  /** A sum over other metrics is zero. */
  lemma {:induction false} SumOther(out: Samples, m: Metric, n: Metric, topic: Option<GoString>)
    requires AllOf(out, m) && m != n
    ensures Sum(out, n, topic) == 0
  {
    if out != [] {
      SumOther(out[1..], m, n, topic);
    }
  }

  lemma CountTopicAppend(a: seq<Trend>, x: Trend, t: GoString)
    ensures CountTopic(a + [x], t) == CountTopic(a, t) + (if x.topic == t then 1 else 0)
  {
    assert (a + [x])[..|a|] == a;
  }

  lemma {:induction false} CountTagOfTrends(m: Metric, trends: seq<Trend>, t: GoString)
    ensures CountTag(AsTagged(m, trends), Some(t)) == CountTopic(trends, t)
  {
    if trends != [] {
      var init := trends[..|trends| - 1];
      CountTagOfTrends(m, init, t);
      assert AsTagged(m, trends)[..|trends| - 1] == AsTagged(m, init);
    }
  }
}
