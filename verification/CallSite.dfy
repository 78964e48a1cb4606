/** The samples one produce or consume call adds itself (pkg/kafka/metrics.go:206-323). */
module CallSite {
  import opened Prelude
  import opened Metrics
  import opened Collector
  import opened CollectorRuns

  /** Two samples per topic, in the order the range over counts takes. */
  function PerTopic(
    mc: Metric, mb: Metric, counts: map<GoString, int>, bytes: map<GoString, int>, order: seq<GoString>): Samples
  {
    if order == [] then []
    else
      var t := order[|order| - 1];
      PerTopic(mc, mb, counts, bytes, order[..|order| - 1])
      + [Sample(mc, Some(t), Get(counts, t)), Sample(mb, Some(t), Get(bytes, t))]
  }

  function ProduceSite(counts: map<GoString, int>, bytes: map<GoString, int>, errCount: int, order: seq<GoString>)
    : Samples
  {
    PerTopic(WriterMessageCount, WriterMessageBytes, counts, bytes, order)
    + (if errCount > 0 then [Sample(WriterErrorCount, None, errCount)] else [])
  }

  /** What flushConsume is given. */
  datatype Tally = Tally(
    counts: map<GoString, int>, bytes: map<GoString, int>, lags: seq<Trend>, offsets: seq<Trend>,
    fetchErr: bool, timedOut: bool)

  function Flag(m: Metric, b: bool): Samples {
    if b then [Sample(m, None, 1)] else []
  }

  function ConsumeSite(x: Tally, order: seq<GoString>): Samples {
    PerTopic(ReaderMessageCount, ReaderMessageBytes, x.counts, x.bytes, order)
    + AsTagged(ReaderLag, x.lags)
    + AsTagged(ReaderOffset, x.offsets)
    + Flag(ReaderErrorCount, x.fetchErr)
    + Flag(ReaderTimeoutsCount, x.timedOut)
  }

  /** The iteration orders a flush took. */
  datatype Orders = Orders(site: seq<GoString>, drain: seq<GoString>)

  method AddPerTopic(mc: Metric, mb: Metric, counts: map<GoString, int>, bytes: map<GoString, int>)
    returns (r: Samples, order: seq<GoString>)
    ensures IsOrder(order, counts.Keys) && r == PerTopic(mc, mb, counts, bytes, order)
  {
    r := [];
    order := RangeOrder(counts.Keys);
    for i := 0 to |order|
      invariant r == PerTopic(mc, mb, counts, bytes, order[..i])
    {
      assert order[..i + 1][..i] == order[..i];
      r := r + [Sample(mc, Some(order[i]), counts[order[i]]), Sample(mb, Some(order[i]), Get(bytes, order[i]))];
    }
    assert order[..|order|] == order;
  }

  /** What a flush with VU state hands to k6: the call's samples, then the drained. */
  ghost predicate Flushes(before: State, after: State, site: Samples, built: Samples, o: Orders) {
    && IsOrder(o.drain, before.batchCount.Keys)
    && built == site + DrainOutput(before, o.drain)
    && after == Drained(before, o.drain)
  }

  method FlushProduce(
    mc: MetricsCollector, hasState: bool, counts: map<GoString, int>, bytes: map<GoString, int>, errCount: int)
    returns (built: Samples, o: Orders)
    modifies mc
    ensures !hasState ==> built == [] && mc.View() == old(mc.View())
    ensures hasState ==>
              IsOrder(o.site, counts.Keys)
              && Flushes(old(mc.View()), mc.View(), ProduceSite(counts, bytes, errCount, o.site), built, o)
  {
    var out, order := AddPerTopic(WriterMessageCount, WriterMessageBytes, counts, bytes);
    if errCount > 0 {
      out := out + [Sample(WriterErrorCount, None, errCount)];
    }
    assert out == ProduceSite(counts, bytes, errCount, order);
    var drain;
    built, drain := mc.Flush(hasState, out);
    o := Orders(order, drain);
  }

  method FlushConsume(mc: MetricsCollector, hasState: bool, x: Tally) returns (built: Samples, o: Orders)
    modifies mc
    ensures !hasState ==> built == [] && mc.View() == old(mc.View())
    ensures hasState ==>
              IsOrder(o.site, x.counts.Keys)
              && Flushes(old(mc.View()), mc.View(), ConsumeSite(x, o.site), built, o)
  {
    var out, order := AddPerTopic(ReaderMessageCount, ReaderMessageBytes, x.counts, x.bytes);
    out := AddTrends(out, ReaderLag, x.lags);
    out := AddTrends(out, ReaderOffset, x.offsets);
    if x.fetchErr {
      out := out + [Sample(ReaderErrorCount, None, 1)];
    }
    if x.timedOut {
      out := out + [Sample(ReaderTimeoutsCount, None, 1)];
    }
    assert out == ConsumeSite(x, order);
    var drain;
    built, drain := mc.Flush(hasState, out);
    o := Orders(order, drain);
  }

  // ----- what k6 makes of them

  lemma SumPair(mc: Metric, mb: Metric, t: GoString, c: int, b: int, topic: Option<GoString>)
    requires mc != mb
    ensures var out := [Sample(mc, Some(t), c), Sample(mb, Some(t), b)];
            Sum(out, mc, topic) == (if topic == Some(t) then c else 0)
            && Sum(out, mb, topic) == (if topic == Some(t) then b else 0)
  {
    var x, y := [Sample(mc, Some(t), c)], [Sample(mb, Some(t), b)];
    assert [Sample(mc, Some(t), c), Sample(mb, Some(t), b)] == x + y;
    SumConcat(x, y, mc, topic);
    SumConcat(x, y, mb, topic);
  }

  lemma PerTopicStep(
    mc: Metric, mb: Metric, counts: map<GoString, int>, bytes: map<GoString, int>, order: seq<GoString>,
    m: Metric, t: GoString)
    requires mc != mb && m in {mc, mb} && order != []
    ensures var last := order[|order| - 1];
            Sum(PerTopic(mc, mb, counts, bytes, order), m, Some(t))
            == Sum(PerTopic(mc, mb, counts, bytes, order[..|order| - 1]), m, Some(t))
               + (if t == last then (if m == mc then Get(counts, t) else Get(bytes, t)) else 0)
  {
    var last := order[|order| - 1];
    var pair := [Sample(mc, Some(last), Get(counts, last)), Sample(mb, Some(last), Get(bytes, last))];
    SumPair(mc, mb, last, Get(counts, last), Get(bytes, last), Some(t));
    SumConcat(PerTopic(mc, mb, counts, bytes, order[..|order| - 1]), pair, m, Some(t));
  }

  lemma {:induction false} PerTopicSum(
    mc: Metric, mb: Metric, counts: map<GoString, int>, bytes: map<GoString, int>, order: seq<GoString>,
    m: Metric, t: GoString)
    requires mc != mb && m in {mc, mb}
    requires forall i, j | 0 <= i < j < |order| :: order[i] != order[j]
    ensures t !in order ==> Sum(PerTopic(mc, mb, counts, bytes, order), m, Some(t)) == 0
    ensures t in order ==>
              Sum(PerTopic(mc, mb, counts, bytes, order), m, Some(t))
              == if m == mc then Get(counts, t) else Get(bytes, t)
  {
    if order != [] {
      PerTopicSum(mc, mb, counts, bytes, order[..|order| - 1], m, t);
      PerTopicStep(mc, mb, counts, bytes, order, m, t);
    }
  }

  lemma PerTopicSums(
    mc: Metric, mb: Metric, counts: map<GoString, int>, bytes: map<GoString, int>, order: seq<GoString>, t: GoString)
    requires mc != mb && IsOrder(order, counts.Keys) && bytes.Keys == counts.Keys
    ensures var out := PerTopic(mc, mb, counts, bytes, order);
            Sum(out, mc, Some(t)) == Get(counts, t) && Sum(out, mb, Some(t)) == Get(bytes, t)
  {
    PerTopicSum(mc, mb, counts, bytes, order, mc, t);
    PerTopicSum(mc, mb, counts, bytes, order, mb, t);
  }

  predicate Avoids(out: Samples, m: Metric) {
    forall i | 0 <= i < |out| :: out[i].metric != m
  }

  lemma {:induction false} AvoidsNothing(out: Samples, m: Metric, topic: Option<GoString>)
    requires Avoids(out, m)
    ensures Emitted(out, m) == [] && Sum(out, m, topic) == 0
  {
    if out != [] {
      AvoidsNothing(out[1..], m, topic);
    }
  }

  lemma {:induction false} PerTopicMetrics(
    mc: Metric, mb: Metric, counts: map<GoString, int>, bytes: map<GoString, int>, order: seq<GoString>)
    ensures forall i | 0 <= i < |PerTopic(mc, mb, counts, bytes, order)| ::
              PerTopic(mc, mb, counts, bytes, order)[i].metric in {mc, mb}
  {
    if order != [] {
      PerTopicMetrics(mc, mb, counts, bytes, order[..|order| - 1]);
    }
  }

  /** The metrics a drain can emit. */
  predicate IsHookMetric(m: Metric) {
    m.WriterWriteCount? || m.WriterBatchSize? || m.WriterBatchBytes? || m.WriterDialCount? || m.WriterDialSeconds?
    || m.WriterWriteSeconds? || m.WriterWaitSeconds? || m.ReaderFetchesCount? || m.ReaderFetchSize?
    || m.ReaderFetchBytes? || m.ReaderDialCount? || m.ReaderDialSeconds? || m.ReaderReadSeconds? || m.ReaderWaitSeconds?
  }

  /** Draining never adds to a call's own metrics. */
  lemma DrainAvoids(s: State, order: seq<GoString>, m: Metric)
    requires !IsHookMetric(m)
    ensures Avoids(DrainOutput(s, order), m)
  {
    CountSamplesUniform(HandlesOf(s.role).batchCount, s, order);
  }

  /** Read off a whole flush, a call's own metrics are those of its call site. */
  lemma SiteOnly(site: Samples, s: State, drain: seq<GoString>, m: Metric, topic: Option<GoString>)
    requires !IsHookMetric(m)
    ensures Emitted(site + DrainOutput(s, drain), m) == Emitted(site, m)
    ensures Sum(site + DrainOutput(s, drain), m, topic) == Sum(site, m, topic)
  {
    DrainAvoids(s, drain, m);
    AvoidsNothing(DrainOutput(s, drain), m, topic);
    EmittedConcat(site, DrainOutput(s, drain), m);
    SumConcat(site, DrainOutput(s, drain), m, topic);
  }

  /** Around a stretch that alone may hold m, nothing changes what m reads. */
  lemma Isolate(a: Samples, b: Samples, c: Samples, m: Metric, topic: Option<GoString>)
    requires Avoids(a, m) && Avoids(c, m)
    ensures Emitted(a + b + c, m) == Emitted(b, m) && Sum(a + b + c, m, topic) == Sum(b, m, topic)
  {
    EmittedConcat(a + b, c, m);
    EmittedConcat(a, b, m);
    SumConcat(a + b, c, m, topic);
    SumConcat(a, b, m, topic);
    AvoidsNothing(a, m, topic);
    AvoidsNothing(c, m, topic);
  }

  /** The stretches of a consume flush. */
  datatype Stretches = Stretches(a: Samples, b: Samples, c: Samples, d: Samples, e: Samples)

  function StretchesOf(x: Tally, order: seq<GoString>): Stretches {
    Stretches(
      PerTopic(ReaderMessageCount, ReaderMessageBytes, x.counts, x.bytes, order),
      AsTagged(ReaderLag, x.lags), AsTagged(ReaderOffset, x.offsets),
      Flag(ReaderErrorCount, x.fetchErr), Flag(ReaderTimeoutsCount, x.timedOut))
  }

  function Whole(s: Stretches): Samples {
    s.a + s.b + s.c + s.d + s.e
  }

  predicate Separate(s: Stretches) {
    && (forall i | 0 <= i < |s.a| :: s.a[i].metric in {ReaderMessageCount, ReaderMessageBytes})
    && AllOf(s.b, ReaderLag) && AllOf(s.c, ReaderOffset)
    && AllOf(s.d, ReaderErrorCount) && AllOf(s.e, ReaderTimeoutsCount)
  }

  lemma SelectCounts(s: Stretches, m: Metric, topic: Option<GoString>)
    requires Separate(s) && m in {ReaderMessageCount, ReaderMessageBytes}
    ensures Sum(Whole(s), m, topic) == Sum(s.a, m, topic)
  {
    var rest := s.b + s.c + s.d + s.e;
    assert Whole(s) == [] + s.a + rest;
    Isolate([], s.a, rest, m, topic);
  }

  lemma SelectLags(s: Stretches)
    requires Separate(s)
    ensures Emitted(Whole(s), ReaderLag) == s.b
  {
    assert Whole(s) == s.a + s.b + (s.c + s.d + s.e);
    Isolate(s.a, s.b, s.c + s.d + s.e, ReaderLag, None);
    EmittedUniform(s.b, ReaderLag, ReaderLag);
  }

  lemma SelectOffsets(s: Stretches)
    requires Separate(s)
    ensures Emitted(Whole(s), ReaderOffset) == s.c
  {
    assert Whole(s) == (s.a + s.b) + s.c + (s.d + s.e);
    Isolate(s.a + s.b, s.c, s.d + s.e, ReaderOffset, None);
    EmittedUniform(s.c, ReaderOffset, ReaderOffset);
  }

  lemma SelectFlags(s: Stretches)
    requires Separate(s)
    ensures Sum(Whole(s), ReaderErrorCount, None) == Sum(s.d, ReaderErrorCount, None)
    ensures Sum(Whole(s), ReaderTimeoutsCount, None) == Sum(s.e, ReaderTimeoutsCount, None)
  {
    Isolate(s.a + s.b + s.c, s.d, s.e, ReaderErrorCount, None);
    assert Whole(s) == (s.a + s.b + s.c + s.d) + s.e + [];
    Isolate(s.a + s.b + s.c + s.d, s.e, [], ReaderTimeoutsCount, None);
  }

  lemma ConsumeCounts(x: Tally, order: seq<GoString>, t: GoString)
    requires IsOrder(order, x.counts.Keys) && x.bytes.Keys == x.counts.Keys
    ensures var out := ConsumeSite(x, order);
            Sum(out, ReaderMessageCount, Some(t)) == Get(x.counts, t)
            && Sum(out, ReaderMessageBytes, Some(t)) == Get(x.bytes, t)
  {
    var s := StretchesOf(x, order);
    PerTopicMetrics(ReaderMessageCount, ReaderMessageBytes, x.counts, x.bytes, order);
    PerTopicSums(ReaderMessageCount, ReaderMessageBytes, x.counts, x.bytes, order, t);
    SelectCounts(s, ReaderMessageCount, Some(t));
    SelectCounts(s, ReaderMessageBytes, Some(t));
  }

  lemma ConsumeOthers(x: Tally, order: seq<GoString>)
    ensures var out := ConsumeSite(x, order);
            Emitted(out, ReaderLag) == AsTagged(ReaderLag, x.lags)
            && Emitted(out, ReaderOffset) == AsTagged(ReaderOffset, x.offsets)
            && Sum(out, ReaderErrorCount, None) == Sum(Flag(ReaderErrorCount, x.fetchErr), ReaderErrorCount, None)
            && Sum(out, ReaderTimeoutsCount, None) == Sum(Flag(ReaderTimeoutsCount, x.timedOut), ReaderTimeoutsCount, None)
  {
    var s := StretchesOf(x, order);
    PerTopicMetrics(ReaderMessageCount, ReaderMessageBytes, x.counts, x.bytes, order);
    SelectLags(s);
    SelectOffsets(s);
    SelectFlags(s);
  }

  lemma FlagSum(m: Metric, b: bool)
    ensures Sum(Flag(m, b), m, None) == if b then 1 else 0
  {
    if b {
      assert Flag(m, b)[1..] == [];
    }
  }

  /** A consume flush reports its tally, topic by topic and value by value. */
  lemma ConsumeSiteReads(x: Tally, order: seq<GoString>, t: GoString)
    requires IsOrder(order, x.counts.Keys)
    requires x.bytes.Keys == x.counts.Keys
    ensures var out := ConsumeSite(x, order);
            Sum(out, ReaderMessageCount, Some(t)) == Get(x.counts, t)
            && Sum(out, ReaderMessageBytes, Some(t)) == Get(x.bytes, t)
            && Emitted(out, ReaderLag) == AsTagged(ReaderLag, x.lags)
            && Emitted(out, ReaderOffset) == AsTagged(ReaderOffset, x.offsets)
            && Sum(out, ReaderErrorCount, None) == (if x.fetchErr then 1 else 0)
            && Sum(out, ReaderTimeoutsCount, None) == (if x.timedOut then 1 else 0)
  {
    ConsumeCounts(x, order, t);
    ConsumeOthers(x, order);
    FlagSum(ReaderErrorCount, x.fetchErr);
    FlagSum(ReaderTimeoutsCount, x.timedOut);
  }

  /** A produce flush reports its counts, topic by topic, and its errors. */
  lemma ProduceSiteReads(
    counts: map<GoString, int>, bytes: map<GoString, int>, errCount: nat, order: seq<GoString>, t: GoString)
    requires IsOrder(order, counts.Keys) && bytes.Keys == counts.Keys
    ensures var out := ProduceSite(counts, bytes, errCount, order);
            Sum(out, WriterMessageCount, Some(t)) == Get(counts, t)
            && Sum(out, WriterMessageBytes, Some(t)) == Get(bytes, t)
            && Sum(out, WriterErrorCount, None) == errCount
  {
    var a := PerTopic(WriterMessageCount, WriterMessageBytes, counts, bytes, order);
    var b := if errCount > 0 then [Sample(WriterErrorCount, None, errCount)] else [];
    PerTopicMetrics(WriterMessageCount, WriterMessageBytes, counts, bytes, order);
    PerTopicSums(WriterMessageCount, WriterMessageBytes, counts, bytes, order, t);
    var out := ProduceSite(counts, bytes, errCount, order);
    assert out == [] + a + b && out == a + b + [];
    Isolate([], a, b, WriterMessageCount, Some(t));
    Isolate([], a, b, WriterMessageBytes, Some(t));
    Isolate(a, b, [], WriterErrorCount, None);
  }
}
