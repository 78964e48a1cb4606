/**
 Whole runs of the metrics collector under every interleaving of hooks and drains
 (pkg/kafka/metrics.go:104-110, 137-189, 233-277).
 */
module CollectorRuns {
  import opened Prelude
  import opened Metrics
  import opened Collector

  /** One critical section; order is the map iteration order of that drain. */
  datatype Event = Fire(h: Hook) | Drain(order: seq<GoString>)

  predicate Legal(s: State, e: Event) {
    e.Drain? ==> IsOrder(e.order, s.batchCount.Keys)
  }

  function Next(s: State, e: Event): State
    requires Legal(s, e)
  {
    match e
    case Fire(h) => OnHook(s, h)
    case Drain(order) => Drained(s, order)
  }

  function Output(s: State, e: Event): Samples {
    match e
    case Fire(_) => []
    case Drain(order) => DrainOutput(s, order)
  }

  /** states is what es does to a new collector, one state before each event and
      one after the last. */
  predicate IsRun(role: Role, es: seq<Event>, states: seq<State>) {
    && |states| == |es| + 1
    && states[0] == Init(role)
    && forall i | 0 <= i < |es| :: Legal(states[i], es[i]) && states[i + 1] == Next(states[i], es[i])
  }

  /** Everything the drains among the first n events emitted. */
  function OutputOf(es: seq<Event>, states: seq<State>, n: nat): Samples
    requires n <= |es| < |states|
  {
    if n == 0 then [] else OutputOf(es, states, n - 1) + Output(states[n - 1], es[n - 1])
  }

  /** The hooks among the first n events. */
  function HooksOf(es: seq<Event>, n: nat): seq<Hook>
    requires n <= |es|
  {
    if n == 0 then [] else HooksOf(es, n - 1) + HookOf(es[n - 1])
  }

  function HookOf(e: Event): seq<Hook> {
    if e.Fire? then [e.h] else []
  }

  // ----- what the hooks reported, whatever was drained when

  /** A request of the role's own kind that went through: Produce has API key 0 in the
      Kafka protocol, and Fetch 1. */
  predicate OwnRequest(role: Role, h: Hook) {
    || (role == Writer && h.BrokerWrite? && h.key == 0 && !h.failed)
    || (role == Reader && h.BrokerRead? && h.key == 1 && !h.failed)
  }

  function DialOf(h: Hook): seq<int> {
    if h.BrokerConnect? && !h.failed then [h.millis] else []
  }

  function TookOf(role: Role, h: Hook): seq<int> {
    if OwnRequest(role, h) then [h.took] else []
  }

  function WaitOf(role: Role, h: Hook): seq<int> {
    if OwnRequest(role, h) then [h.wait] else []
  }

  function DialsSeen(hs: seq<Hook>): seq<int> {
    if hs == [] then [] else DialsSeen(hs[..|hs| - 1]) + DialOf(hs[|hs| - 1])
  }

  function TookSeen(role: Role, hs: seq<Hook>): seq<int> {
    if hs == [] then [] else TookSeen(role, hs[..|hs| - 1]) + TookOf(role, hs[|hs| - 1])
  }

  function WaitSeen(role: Role, hs: seq<Hook>): seq<int> {
    if hs == [] then [] else WaitSeen(role, hs[..|hs| - 1]) + WaitOf(role, hs[|hs| - 1])
  }

  function SizesSeen(hs: seq<Hook>): seq<Trend> {
    if hs == [] then []
    else
      var h := hs[|hs| - 1];
      SizesSeen(hs[..|hs| - 1]) + (if h.ProduceBatch? || h.FetchBatch? then [Trend(h.topic, h.records)] else [])
  }

  function BytesSeen(hs: seq<Hook>): seq<Trend> {
    if hs == [] then []
    else
      var h := hs[|hs| - 1];
      BytesSeen(hs[..|hs| - 1]) + (if h.ProduceBatch? || h.FetchBatch? then [Trend(h.topic, h.bytes)] else [])
  }

  // ----- the invariant of every reachable state

  predicate Balanced(s: State) {
    && |s.dialSeconds| == s.dialCount - s.dialFlushed
    && |s.rwSeconds| == |s.waitSeconds|
    && (forall t | t in s.batchFlushed :: t in s.batchCount)
  }

  predicate TopicBalanced(s: State, t: GoString) {
    CountTopic(s.batchSize, t) == CountTopic(s.batchBytes, t) == Pending(s, t)
  }

  lemma PendingAfterBatch(s: State, topic: GoString, records: int, bytes: int, t: GoString)
    ensures Pending(OnBatch(s, topic, records, bytes), t) == Pending(s, t) + (if t == topic then 1 else 0)
  {
  }

  lemma BatchBalanced(s: State, topic: GoString, records: int, bytes: int, t: GoString)
    requires TopicBalanced(s, t)
    ensures TopicBalanced(OnBatch(s, topic, records, bytes), t)
  {
    PendingAfterBatch(s, topic, records, bytes, t);
    CountTopicAppend(s.batchSize, Trend(topic, records), t);
    CountTopicAppend(s.batchBytes, Trend(topic, bytes), t);
  }

  lemma HookBalanced(s: State, h: Hook, t: GoString)
    requires Balanced(s) && TopicBalanced(s, t)
    ensures Balanced(OnHook(s, h)) && TopicBalanced(OnHook(s, h), t)
  {
    if h.ProduceBatch? || h.FetchBatch? {
      BatchBalanced(s, h.topic, h.records, h.bytes, t);
    }
  }

  lemma {:induction false} FlushedAt(s: State, order: seq<GoString>, t: GoString)
    requires forall i | 0 <= i < |order| :: order[i] in s.batchCount
    ensures Flushed(s, order).Keys <= s.batchFlushed.Keys + s.batchCount.Keys
    ensures Get(Flushed(s, order), t)
            == if t in order && Pending(s, t) > 0 then s.batchCount[t] else Get(s.batchFlushed, t)
  {
    if order != [] {
      FlushedAt(s, order[..|order| - 1], t);
      assert order == order[..|order| - 1] + [order[|order| - 1]];
    }
  }

  lemma DrainBalanced(s: State, order: seq<GoString>, t: GoString)
    requires IsOrder(order, s.batchCount.Keys) && Balanced(s) && TopicBalanced(s, t)
    ensures Balanced(Drained(s, order)) && TopicBalanced(Drained(s, order), t)
    ensures Pending(Drained(s, order), t) == 0
  {
    FlushedAt(s, order, t);
  }

  /** In every reachable state the pending counter deltas equal the lengths of the
      buffers they go with, per topic for batches, and none is negative. */
  lemma {:induction false} AlwaysBalanced(role: Role, es: seq<Event>, states: seq<State>, n: nat, t: GoString)
    requires IsRun(role, es, states) && n <= |es|
    ensures states[n].role == role && Balanced(states[n]) && TopicBalanced(states[n], t)
  {
    if n > 0 {
      AlwaysBalanced(role, es, states, n - 1, t);
      StepBalanced(states[n - 1], es[n - 1], t);
    }
  }

  lemma StepBalanced(s: State, e: Event, t: GoString)
    requires Legal(s, e) && Balanced(s) && TopicBalanced(s, t)
    ensures Next(s, e).role == s.role && Balanced(Next(s, e)) && TopicBalanced(Next(s, e), t)
  {
    match e
    case Fire(h) => HookBalanced(s, h, t);
    case Drain(order) => DrainBalanced(s, order, t);
  }

  // ----- what one drain emits

  lemma {:induction false} CountSamplesUniform(m: Metric, s: State, order: seq<GoString>)
    ensures AllOf(CountSamples(m, s, order), m)
    ensures forall i | 0 <= i < |CountSamples(m, s, order)| :: CountSamples(m, s, order)[i].value > 0
  {
    if order != [] {
      CountSamplesUniform(m, s, order[..|order| - 1]);
    }
  }

  lemma {:induction false} CountSamplesSum(m: Metric, s: State, order: seq<GoString>, t: GoString)
    requires forall i, j | 0 <= i < j < |order| :: order[i] != order[j]
    ensures Sum(CountSamples(m, s, order), m, Some(t))
            == if t in order && Pending(s, t) > 0 then Pending(s, t) else 0
    ensures Sum(CountSamples(m, s, order), m, None) == 0
  {
    if order != [] {
      var init, last := order[..|order| - 1], order[|order| - 1];
      CountSamplesSum(m, s, init, t);
      assert order == init + [last];
      var tail := if Pending(s, last) > 0 then [Sample(m, Some(last), Pending(s, last))] else [];
      SumConcat(CountSamples(m, s, init), tail, m, Some(t));
      SumConcat(CountSamples(m, s, init), tail, m, None);
    }
  }

  /** The seven stretches of a drain's output, each of a single metric. */
  function Parts(s: State, order: seq<GoString>): seq<(Metric, Samples)> {
    var h := HandlesOf(s.role);
    [(h.dialCount, DialSample(s)),
     (h.dialSeconds, AsSamples(h.dialSeconds, s.dialSeconds)),
     (h.rwSeconds, AsSamples(h.rwSeconds, s.rwSeconds)),
     (h.waitSeconds, AsSamples(h.waitSeconds, s.waitSeconds)),
     (h.batchCount, CountSamples(h.batchCount, s, order)),
     (h.batchSize, AsTagged(h.batchSize, s.batchSize)),
     (h.batchBytes, AsTagged(h.batchBytes, s.batchBytes))]
  }

  function Join(parts: seq<(Metric, Samples)>): Samples {
    if parts == [] then [] else Join(parts[..|parts| - 1]) + parts[|parts| - 1].1
  }

  lemma {:induction false} JoinWithout(parts: seq<(Metric, Samples)>, m: Metric, topic: Option<GoString>)
    requires forall i | 0 <= i < |parts| :: AllOf(parts[i].1, parts[i].0) && parts[i].0 != m
    ensures Emitted(Join(parts), m) == [] && Sum(Join(parts), m, topic) == 0
  {
    if parts != [] {
      var init, last := parts[..|parts| - 1], parts[|parts| - 1];
      JoinWithout(init, m, topic);
      EmittedConcat(Join(init), last.1, m);
      SumConcat(Join(init), last.1, m, topic);
      EmittedUniform(last.1, last.0, m);
      SumOther(last.1, last.0, m, topic);
    }
  }

  /** Stretches of different metrics do not mix. */
  lemma {:induction false} JoinSelect(parts: seq<(Metric, Samples)>, k: nat, topic: Option<GoString>)
    requires k < |parts|
    requires forall i | 0 <= i < |parts| :: AllOf(parts[i].1, parts[i].0) && (i != k ==> parts[i].0 != parts[k].0)
    ensures Emitted(Join(parts), parts[k].0) == parts[k].1
    ensures Sum(Join(parts), parts[k].0, topic) == Sum(parts[k].1, parts[k].0, topic)
  {
    var init, last, m := parts[..|parts| - 1], parts[|parts| - 1], parts[k].0;
    EmittedConcat(Join(init), last.1, m);
    SumConcat(Join(init), last.1, m, topic);
    EmittedUniform(last.1, last.0, m);
    if k < |init| {
      assert init[k] == parts[k];
      JoinSelect(init, k, topic);
      SumOther(last.1, last.0, m, topic);
    } else {
      JoinWithout(init, m, topic);
    }
  }

  lemma JoinParts(s: State, order: seq<GoString>)
    ensures Join(Parts(s, order)) == DrainOutput(s, order)
  {
    var p := Parts(s, order);
    assert p[..6][..5] == p[..5] && p[..5][..4] == p[..4] && p[..4][..3] == p[..3] && p[..3][..2] == p[..2];
    assert p[..2][..1] == p[..1] && p[..1][..0] == [];
    assert Join(p[..1]) == p[0].1;
    assert Join(p[..2]) == p[0].1 + p[1].1;
    assert Join(p[..3]) == Join(p[..2]) + p[2].1;
    assert Join(p[..4]) == Join(p[..3]) + p[3].1;
    assert Join(p[..5]) == Join(p[..4]) + p[4].1;
    assert Join(p[..6]) == Join(p[..5]) + p[5].1;
    assert p[..6] == p[..|p| - 1];
  }

  lemma DrainSelect(s: State, order: seq<GoString>, i: nat, topic: Option<GoString>)
    requires i < 7
    ensures var part := Parts(s, order)[i];
            Emitted(DrainOutput(s, order), part.0) == part.1
            && Sum(DrainOutput(s, order), part.0, topic) == Sum(part.1, part.0, topic)
  {
    var h := HandlesOf(s.role);
    CountSamplesUniform(h.batchCount, s, order);
    JoinParts(s, order);
    JoinSelect(Parts(s, order), i, topic);
  }

  /** The trends one drain emits are the buffers, in order. */
  lemma DrainTrends(s: State, order: seq<GoString>)
    ensures var h, out := HandlesOf(s.role), DrainOutput(s, order);
            Emitted(out, h.dialSeconds) == AsSamples(h.dialSeconds, s.dialSeconds)
            && Emitted(out, h.rwSeconds) == AsSamples(h.rwSeconds, s.rwSeconds)
            && Emitted(out, h.waitSeconds) == AsSamples(h.waitSeconds, s.waitSeconds)
            && Emitted(out, h.batchSize) == AsTagged(h.batchSize, s.batchSize)
            && Emitted(out, h.batchBytes) == AsTagged(h.batchBytes, s.batchBytes)
  {
    DrainSelect(s, order, 1, None);
    DrainSelect(s, order, 2, None);
    DrainSelect(s, order, 3, None);
    DrainSelect(s, order, 5, None);
    DrainSelect(s, order, 6, None);
  }

  /** The counters one drain emits are the pending deltas. */
  lemma DrainCounts(s: State, order: seq<GoString>, t: GoString)
    requires IsOrder(order, s.batchCount.Keys) && Balanced(s) && TopicBalanced(s, t)
    ensures Sum(DrainOutput(s, order), HandlesOf(s.role).dialCount, None) == |s.dialSeconds|
    ensures Sum(DrainOutput(s, order), HandlesOf(s.role).batchCount, Some(t)) == Pending(s, t)
  {
    DrainSelect(s, order, 0, None);
    DrainSelect(s, order, 4, Some(t));
    CountSamplesSum(HandlesOf(s.role).batchCount, s, order, t);
  }

  lemma DrainTags(s: State, order: seq<GoString>, t: GoString)
    requires TopicBalanced(s, t)
    ensures var h, out := HandlesOf(s.role), DrainOutput(s, order);
            CountTag(Emitted(out, h.batchSize), Some(t)) == Pending(s, t)
            && CountTag(Emitted(out, h.batchBytes), Some(t)) == Pending(s, t)
  {
    var h := HandlesOf(s.role);
    DrainTrends(s, order);
    CountTagOfTrends(h.batchSize, s.batchSize, t);
    CountTagOfTrends(h.batchBytes, s.batchBytes, t);
  }

  lemma DrainPositive(s: State, order: seq<GoString>)
    ensures var h, out := HandlesOf(s.role), DrainOutput(s, order);
            forall x | x in Emitted(out, h.dialCount) + Emitted(out, h.batchCount) :: x.value > 0
  {
    DrainSelect(s, order, 0, None);
    DrainSelect(s, order, 4, None);
    CountSamplesUniform(HandlesOf(s.role).batchCount, s, order);
  }

  /** In every drain of every run: each counter equals the number of trend samples
      drained with its tag, there is one wait per request time, and no counter
      sample is zero. */
  lemma EachDrainAgrees(role: Role, es: seq<Event>, states: seq<State>, n: nat, t: GoString)
    requires IsRun(role, es, states) && n < |es| && es[n].Drain?
    ensures var h, out := HandlesOf(role), Output(states[n], es[n]);
            Sum(out, h.dialCount, None) == |Emitted(out, h.dialSeconds)|
            && |Emitted(out, h.rwSeconds)| == |Emitted(out, h.waitSeconds)|
            && Sum(out, h.batchCount, Some(t)) == CountTag(Emitted(out, h.batchSize), Some(t))
            && Sum(out, h.batchCount, Some(t)) == CountTag(Emitted(out, h.batchBytes), Some(t))
            && (forall x | x in Emitted(out, h.dialCount) + Emitted(out, h.batchCount) :: x.value > 0)
  {
    var s, order := states[n], es[n].order;
    AlwaysBalanced(role, es, states, n, t);
    DrainTrends(s, order);
    DrainCounts(s, order, t);
    DrainTags(s, order, t);
    DrainPositive(s, order);
  }

  // ----- conservation over whole runs

  /** What was drained of the untagged trends, followed by what is buffered, is what
      the hooks reported. */
  ghost predicate TimingsConserved(role: Role, out: Samples, s: State, hs: seq<Hook>) {
    var h := HandlesOf(role);
    && Emitted(out, h.dialSeconds) + AsSamples(h.dialSeconds, s.dialSeconds) == AsSamples(h.dialSeconds, DialsSeen(hs))
    && Emitted(out, h.rwSeconds) + AsSamples(h.rwSeconds, s.rwSeconds) == AsSamples(h.rwSeconds, TookSeen(role, hs))
    && Emitted(out, h.waitSeconds) + AsSamples(h.waitSeconds, s.waitSeconds)
       == AsSamples(h.waitSeconds, WaitSeen(role, hs))
  }

  /** The same for the trends tagged by topic. */
  ghost predicate BatchesConserved(role: Role, out: Samples, s: State, hs: seq<Hook>) {
    var h := HandlesOf(role);
    && Emitted(out, h.batchSize) + AsTagged(h.batchSize, s.batchSize) == AsTagged(h.batchSize, SizesSeen(hs))
    && Emitted(out, h.batchBytes) + AsTagged(h.batchBytes, s.batchBytes) == AsTagged(h.batchBytes, BytesSeen(hs))
  }

  lemma AsSamplesConcat(m: Metric, a: seq<int>, b: seq<int>)
    ensures AsSamples(m, a + b) == AsSamples(m, a) + AsSamples(m, b)
  {
  }

  lemma AsTaggedConcat(m: Metric, a: seq<Trend>, b: seq<Trend>)
    ensures AsTagged(m, a + b) == AsTagged(m, a) + AsTagged(m, b)
  {
  }

  /** If emitted + buffered == seen, then it still is after one more arrives. */
  lemma OneMoreValue(m: Metric, emitted: Samples, buffer: seq<int>, seen: seq<int>, more: seq<int>)
    requires emitted + AsSamples(m, buffer) == AsSamples(m, seen)
    ensures emitted + AsSamples(m, buffer + more) == AsSamples(m, seen + more)
  {
    AsSamplesConcat(m, buffer, more);
    AsSamplesConcat(m, seen, more);
    assert emitted + (AsSamples(m, buffer) + AsSamples(m, more)) == emitted + AsSamples(m, buffer) + AsSamples(m, more);
  }

  lemma OneMoreTrend(m: Metric, emitted: Samples, buffer: seq<Trend>, seen: seq<Trend>, more: seq<Trend>)
    requires emitted + AsTagged(m, buffer) == AsTagged(m, seen)
    ensures emitted + AsTagged(m, buffer + more) == AsTagged(m, seen + more)
  {
    AsTaggedConcat(m, buffer, more);
    AsTaggedConcat(m, seen, more);
    assert emitted + (AsTagged(m, buffer) + AsTagged(m, more)) == emitted + AsTagged(m, buffer) + AsTagged(m, more);
  }

  // What one more hook adds to what the hooks reported.

  lemma OneMoreDial(hs: seq<Hook>, h: Hook)
    ensures DialsSeen(hs + [h]) == DialsSeen(hs) + DialOf(h)
    ensures |DialsSeen(hs + [h])| == |DialsSeen(hs)| + |DialOf(h)|
  {
    assert (hs + [h])[..|hs|] == hs;
  }

  lemma OneMoreRequest(role: Role, hs: seq<Hook>, h: Hook)
    ensures TookSeen(role, hs + [h]) == TookSeen(role, hs) + TookOf(role, h)
    ensures WaitSeen(role, hs + [h]) == WaitSeen(role, hs) + WaitOf(role, h)
  {
    assert (hs + [h])[..|hs|] == hs;
  }

  /** What one more hook adds to the untagged buffers. */
  lemma HookBuffers(s: State, h: Hook)
    ensures OnHook(s, h).role == s.role && OnHook(s, h).dialSeconds == s.dialSeconds + DialOf(h)
    ensures OnHook(s, h).rwSeconds == s.rwSeconds + TookOf(s.role, h)
    ensures OnHook(s, h).waitSeconds == s.waitSeconds + WaitOf(s.role, h)
  {
  }

  lemma OneMoreBatch(hs: seq<Hook>, h: Hook)
    ensures SizesSeen(hs + [h])
            == if h.ProduceBatch? || h.FetchBatch? then SizesSeen(hs) + [Trend(h.topic, h.records)] else SizesSeen(hs)
    ensures BytesSeen(hs + [h])
            == if h.ProduceBatch? || h.FetchBatch? then BytesSeen(hs) + [Trend(h.topic, h.bytes)] else BytesSeen(hs)
  {
    assert (hs + [h])[..|hs|] == hs;
  }

  predicate IsBatchOf(h: Hook, t: GoString) {
    (h.ProduceBatch? || h.FetchBatch?) && h.topic == t
  }

  lemma OneMoreSize(hs: seq<Hook>, h: Hook, t: GoString)
    ensures CountTopic(SizesSeen(hs + [h]), t) == CountTopic(SizesSeen(hs), t) + (if IsBatchOf(h, t) then 1 else 0)
  {
    OneMoreBatch(hs, h);
    if h.ProduceBatch? || h.FetchBatch? {
      CountTopicAppend(SizesSeen(hs), Trend(h.topic, h.records), t);
    }
  }

  lemma HookKeepsBatches(out: Samples, s: State, hs: seq<Hook>, h: Hook)
    requires BatchesConserved(s.role, out, s, hs)
    ensures BatchesConserved(s.role, out, OnHook(s, h), hs + [h])
  {
    var m := HandlesOf(s.role);
    OneMoreBatch(hs, h);
    if h.ProduceBatch? || h.FetchBatch? {
      OneMoreTrend(m.batchSize, Emitted(out, m.batchSize), s.batchSize, SizesSeen(hs), [Trend(h.topic, h.records)]);
      OneMoreTrend(m.batchBytes, Emitted(out, m.batchBytes), s.batchBytes, BytesSeen(hs), [Trend(h.topic, h.bytes)]);
    }
  }

  lemma HookKeepsTimings(out: Samples, s: State, hs: seq<Hook>, h: Hook)
    requires TimingsConserved(s.role, out, s, hs)
    ensures TimingsConserved(s.role, out, OnHook(s, h), hs + [h])
  {
    var m := HandlesOf(s.role);
    HookBuffers(s, h);
    OneMoreDial(hs, h);
    OneMoreRequest(s.role, hs, h);
    OneMoreValue(m.dialSeconds, Emitted(out, m.dialSeconds), s.dialSeconds, DialsSeen(hs), DialOf(h));
    OneMoreValue(m.rwSeconds, Emitted(out, m.rwSeconds), s.rwSeconds, TookSeen(s.role, hs), TookOf(s.role, h));
    OneMoreValue(m.waitSeconds, Emitted(out, m.waitSeconds), s.waitSeconds, WaitSeen(s.role, hs), WaitOf(s.role, h));
  }

  lemma DrainedTimings(out: Samples, s: State, order: seq<GoString>)
    ensures var m, all := HandlesOf(s.role), out + DrainOutput(s, order);
            Emitted(all, m.dialSeconds) == Emitted(out, m.dialSeconds) + AsSamples(m.dialSeconds, s.dialSeconds)
            && Emitted(all, m.rwSeconds) == Emitted(out, m.rwSeconds) + AsSamples(m.rwSeconds, s.rwSeconds)
            && Emitted(all, m.waitSeconds) == Emitted(out, m.waitSeconds) + AsSamples(m.waitSeconds, s.waitSeconds)
  {
    var m, d := HandlesOf(s.role), DrainOutput(s, order);
    DrainTrends(s, order);
    EmittedConcat(out, d, m.dialSeconds);
    EmittedConcat(out, d, m.rwSeconds);
    EmittedConcat(out, d, m.waitSeconds);
  }

  lemma DrainedBatches(out: Samples, s: State, order: seq<GoString>)
    ensures var m, all := HandlesOf(s.role), out + DrainOutput(s, order);
            Emitted(all, m.batchSize) == Emitted(out, m.batchSize) + AsTagged(m.batchSize, s.batchSize)
            && Emitted(all, m.batchBytes) == Emitted(out, m.batchBytes) + AsTagged(m.batchBytes, s.batchBytes)
  {
    var m, d := HandlesOf(s.role), DrainOutput(s, order);
    DrainTrends(s, order);
    EmittedConcat(out, d, m.batchSize);
    EmittedConcat(out, d, m.batchBytes);
  }

  lemma DrainKeepsTimings(out: Samples, s: State, hs: seq<Hook>, order: seq<GoString>)
    requires IsOrder(order, s.batchCount.Keys) && TimingsConserved(s.role, out, s, hs)
    ensures TimingsConserved(s.role, out + DrainOutput(s, order), Drained(s, order), hs)
  {
    DrainedTimings(out, s, order);
    EmptyTail(out + DrainOutput(s, order));
  }

  lemma DrainKeepsBatches(out: Samples, s: State, hs: seq<Hook>, order: seq<GoString>)
    requires IsOrder(order, s.batchCount.Keys) && BatchesConserved(s.role, out, s, hs)
    ensures BatchesConserved(s.role, out + DrainOutput(s, order), Drained(s, order), hs)
  {
    DrainedBatches(out, s, order);
    EmptyTail(out + DrainOutput(s, order));
  }

  lemma StepKeepsTimings(out: Samples, s: State, hs: seq<Hook>, e: Event)
    requires Legal(s, e) && TimingsConserved(s.role, out, s, hs)
    ensures TimingsConserved(s.role, out + Output(s, e), Next(s, e), hs + HookOf(e))
  {
    match e
    case Fire(h) =>
      assert out + Output(s, e) == out;
      HookKeepsTimings(out, s, hs, h);
    case Drain(order) =>
      assert hs + HookOf(e) == hs;
      DrainKeepsTimings(out, s, hs, order);
  }

  lemma StepKeepsBatches(out: Samples, s: State, hs: seq<Hook>, e: Event)
    requires Legal(s, e) && BatchesConserved(s.role, out, s, hs)
    ensures BatchesConserved(s.role, out + Output(s, e), Next(s, e), hs + HookOf(e))
  {
    match e
    case Fire(h) =>
      assert out + Output(s, e) == out;
      HookKeepsBatches(out, s, hs, h);
    case Drain(order) =>
      assert hs + HookOf(e) == hs;
      DrainKeepsBatches(out, s, hs, order);
  }

  /** For every interleaving, the drained trends followed by the buffers are the
      values the hooks reported, in order. */
  lemma {:induction false} TrendsAlwaysConserved(role: Role, es: seq<Event>, states: seq<State>, n: nat)
    requires IsRun(role, es, states) && n <= |es|
    ensures TimingsConserved(role, OutputOf(es, states, n), states[n], HooksOf(es, n))
    ensures BatchesConserved(role, OutputOf(es, states, n), states[n], HooksOf(es, n))
  {
    if n > 0 {
      TrendsAlwaysConserved(role, es, states, n - 1);
      AlwaysBalanced(role, es, states, n - 1, []);
      StepKeepsTimings(OutputOf(es, states, n - 1), states[n - 1], HooksOf(es, n - 1), es[n - 1]);
      StepKeepsBatches(OutputOf(es, states, n - 1), states[n - 1], HooksOf(es, n - 1), es[n - 1]);
    }
  }

  /** Drained counter plus pending delta is the number of events. */
  ghost predicate CountsConserved(role: Role, out: Samples, s: State, hs: seq<Hook>, t: GoString) {
    var h := HandlesOf(role);
    && Sum(out, h.dialCount, None) + (s.dialCount - s.dialFlushed) == |DialsSeen(hs)|
    && Sum(out, h.batchCount, Some(t)) + Pending(s, t) == CountTopic(SizesSeen(hs), t)
  }

  /** What one more hook adds to the pending deltas. */
  lemma HookPending(s: State, h: Hook, t: GoString)
    ensures OnHook(s, h).role == s.role
    ensures OnHook(s, h).dialCount - OnHook(s, h).dialFlushed
            == s.dialCount - s.dialFlushed + |DialOf(h)|
    ensures Pending(OnHook(s, h), t) == Pending(s, t) + (if IsBatchOf(h, t) then 1 else 0)
  {
    if h.ProduceBatch? || h.FetchBatch? {
      PendingAfterBatch(s, h.topic, h.records, h.bytes, t);
    }
  }

  lemma HookCounted(out: Samples, s: State, hs: seq<Hook>, h: Hook, t: GoString)
    requires CountsConserved(s.role, out, s, hs, t)
    ensures CountsConserved(s.role, out, OnHook(s, h), hs + [h], t)
  {
    OneMoreDial(hs, h);
    OneMoreSize(hs, h, t);
    HookPending(s, h, t);
  }

  lemma DrainCounted(out: Samples, s: State, hs: seq<Hook>, order: seq<GoString>, t: GoString)
    requires IsOrder(order, s.batchCount.Keys) && Balanced(s) && TopicBalanced(s, t)
    requires CountsConserved(s.role, out, s, hs, t)
    ensures CountsConserved(s.role, out + DrainOutput(s, order), Drained(s, order), hs, t)
  {
    DrainCounts(s, order, t);
    DrainBalanced(s, order, t);
    SumConcat(out, DrainOutput(s, order), HandlesOf(s.role).dialCount, None);
    SumConcat(out, DrainOutput(s, order), HandlesOf(s.role).batchCount, Some(t));
  }

  /** A new collector has reported nothing of nothing. */
  lemma StartTimings(out: Samples, s: State, hs: seq<Hook>)
    requires |out| == |hs| == 0 && s == Init(s.role)
    ensures TimingsConserved(s.role, out, s, hs)
  {
    EmptyTail(out);
  }

  lemma StartBatches(out: Samples, s: State, hs: seq<Hook>)
    requires |out| == |hs| == 0 && s == Init(s.role)
    ensures BatchesConserved(s.role, out, s, hs)
  {
    EmptyTail(out);
  }

  lemma StartCounts(out: Samples, s: State, hs: seq<Hook>, t: GoString)
    requires |out| == |hs| == 0 && s == Init(s.role)
    ensures Balanced(s) && TopicBalanced(s, t) && CountsConserved(s.role, out, s, hs, t)
  {
  }

  lemma StepCounted(out: Samples, s: State, hs: seq<Hook>, e: Event, t: GoString)
    requires Legal(s, e) && Balanced(s) && TopicBalanced(s, t)
    requires CountsConserved(s.role, out, s, hs, t)
    ensures CountsConserved(s.role, out + Output(s, e), Next(s, e), hs + HookOf(e), t)
  {
    match e
    case Fire(h) =>
      assert out + Output(s, e) == out;
      HookCounted(out, s, hs, h, t);
    case Drain(order) =>
      assert hs + HookOf(e) == hs;
      DrainCounted(out, s, hs, order, t);
  }

  /** For every interleaving, the counts are conserved, for dials and for the
      batches of every topic. */
  lemma {:induction false} CountsAlwaysConserved(
    role: Role, es: seq<Event>, states: seq<State>, n: nat, t: GoString)
    requires IsRun(role, es, states) && n <= |es|
    ensures CountsConserved(role, OutputOf(es, states, n), states[n], HooksOf(es, n), t)
  {
    if n > 0 {
      CountsAlwaysConserved(role, es, states, n - 1, t);
      AlwaysBalanced(role, es, states, n - 1, t);
      StepCounted(OutputOf(es, states, n - 1), states[n - 1], HooksOf(es, n - 1), es[n - 1], t);
    }
  }

  /** The totals and trends are the event counts and the reported values, all of them. */
  ghost predicate Complete(role: Role, out: Samples, hs: seq<Hook>, t: GoString) {
    var h := HandlesOf(role);
    && Sum(out, h.dialCount, None) == |DialsSeen(hs)|
    && Sum(out, h.batchCount, Some(t)) == CountTopic(SizesSeen(hs), t)
    && Emitted(out, h.dialSeconds) == AsSamples(h.dialSeconds, DialsSeen(hs))
    && Emitted(out, h.rwSeconds) == AsSamples(h.rwSeconds, TookSeen(role, hs))
    && Emitted(out, h.waitSeconds) == AsSamples(h.waitSeconds, WaitSeen(role, hs))
    && Emitted(out, h.batchSize) == AsTagged(h.batchSize, SizesSeen(hs))
    && Emitted(out, h.batchBytes) == AsTagged(h.batchBytes, BytesSeen(hs))
  }

  predicate EndsInDrain(es: seq<Event>) {
    es != [] && es[|es| - 1].Drain?
  }

  /** After a final drain nothing is pending. */
  lemma FinalDrainComplete(role: Role, es: seq<Event>, states: seq<State>, t: GoString)
    requires IsRun(role, es, states) && EndsInDrain(es)
    ensures Complete(role, OutputOf(es, states, |es|), HooksOf(es, |es|), t)
  {
    var n := |es|;
    TrendsAlwaysConserved(role, es, states, n);
    CountsAlwaysConserved(role, es, states, n, t);
    AlwaysBalanced(role, es, states, n - 1, t);
    AlwaysBalanced(role, es, states, n, t);
    DrainBalanced(states[n - 1], es[n - 1].order, t);
    EmptyTail(OutputOf(es, states, n));
  }

  lemma EmptyTail(out: Samples)
    ensures forall m :: Emitted(out, m) + AsSamples(m, []) == Emitted(out, m)
    ensures forall m :: Emitted(out, m) + AsTagged(m, []) == Emitted(out, m)
  {
  }

  /** The same for a writer, metric by metric. */
  lemma FinalWriterDrain(es: seq<Event>, states: seq<State>, t: GoString)
    requires IsRun(Writer, es, states) && EndsInDrain(es)
    ensures var out, hs := OutputOf(es, states, |es|), HooksOf(es, |es|);
            Sum(out, WriterDialCount, None) == |DialsSeen(hs)|
            && Sum(out, WriterWriteCount, Some(t)) == CountTopic(SizesSeen(hs), t)
            && Emitted(out, WriterDialSeconds) == AsSamples(WriterDialSeconds, DialsSeen(hs))
            && Emitted(out, WriterWriteSeconds) == AsSamples(WriterWriteSeconds, TookSeen(Writer, hs))
            && Emitted(out, WriterWaitSeconds) == AsSamples(WriterWaitSeconds, WaitSeen(Writer, hs))
            && Emitted(out, WriterBatchSize) == AsTagged(WriterBatchSize, SizesSeen(hs))
            && Emitted(out, WriterBatchBytes) == AsTagged(WriterBatchBytes, BytesSeen(hs))
  {
    FinalDrainComplete(Writer, es, states, t);
  }

  /** Where the drains fall, and in what order each ranges over its map, changes
      no total and no trend: only the hooks do. */
  lemma DrainPlacementIrrelevant(
    role: Role, es: seq<Event>, states: seq<State>, es': seq<Event>, states': seq<State>, t: GoString)
    requires IsRun(role, es, states) && EndsInDrain(es)
    requires IsRun(role, es', states') && EndsInDrain(es')
    requires HooksOf(es, |es|) == HooksOf(es', |es'|)
    ensures var h, out, out' := HandlesOf(role), OutputOf(es, states, |es|), OutputOf(es', states', |es'|);
            Sum(out, h.dialCount, None) == Sum(out', h.dialCount, None)
            && Sum(out, h.batchCount, Some(t)) == Sum(out', h.batchCount, Some(t))
            && (forall m | m in {h.dialSeconds, h.rwSeconds, h.waitSeconds, h.batchSize, h.batchBytes} ::
                  Emitted(out, m) == Emitted(out', m))
  {
    FinalDrainComplete(role, es, states, t);
    FinalDrainComplete(role, es', states', t);
  }
}
