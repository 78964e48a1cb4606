/**
 Whole runs of produces, closes and hooks of one writer
 (pkg/kafka/producer.go:178-233, pkg/kafka/metrics.go:137-189, 233-292).
 */
module ProducerRuns {
  import opened Prelude
  import opened Metrics
  import opened Collector
  import CR = CollectorRuns
  import FR = FlushRuns
  import opened CallSite
  import opened Producer

  /** A writer: whether it is open, and its collector. */
  datatype World = World(open: bool, mc: State)

  /** A Produce call with its records, their results and the hooks that fired up to
      its return; a Close, with the hooks that fired before its drain; or hooks that
      fire between calls or after the close. */
  datatype Event =
    | Producing(hasState: bool, records: seq<Record>, ds: seq<Delivery>, during: seq<Hook>, o: Orders)
    | Closing(closeState: bool, before: seq<Hook>, drain: seq<GoString>)
    | Firing(hooks: seq<Hook>)

  /** The call reaches the client. */
  predicate Sends(w: World, e: Event) {
    e.Producing? && e.hasState && w.open
  }

  /** The results an event collects. */
  function AcksBy(w: World, e: Event): seq<Ack> {
    if Sends(w, e) && OneEach(e.ds, |e.records|) then AcksOf(e.records, e.ds) else []
  }

  /** The records an event gives to the client. */
  function SentBy(w: World, e: Event): seq<Record> {
    if Sends(w, e) then e.records else []
  }

  function FiredBy(w: World, e: Event): seq<Hook> {
    match e
    case Producing(_, _, _, during, _) => if Sends(w, e) then during else []
    case Closing(_, before, _) => if w.open then before else []
    case Firing(hooks) => hooks
  }

  predicate Drains(w: World, e: Event) {
    Sends(w, e) || (e.Closing? && w.open && e.closeState)
  }

  function DrainOrder(e: Event): seq<GoString> {
    match e
    case Producing(_, _, _, _, o) => o.drain
    case Closing(_, _, drain) => drain
    case Firing(_) => []
  }

  /** The collector just before an event's drain. */
  function Fired(w: World, e: Event): State {
    AfterHooks(w.mc, FiredBy(w, e))
  }

  predicate Legal(w: World, e: Event, defaultTopic: GoString) {
    && (Sends(w, e) ==>
          OneEach(e.ds, |e.records|) && IsOrder(e.o.site, AccountOf(AcksBy(w, e), defaultTopic).counts.Keys))
    && (Drains(w, e) ==> IsOrder(DrainOrder(e), Fired(w, e).batchCount.Keys))
  }

  /** The samples an event adds itself. */
  function Site(w: World, e: Event, defaultTopic: GoString): Samples {
    if Sends(w, e) then
      var a := AccountOf(AcksBy(w, e), defaultTopic);
      ProduceSite(a.counts, a.bytes, a.errCount, e.o.site)
    else []
  }

  /** The samples an event builds. */
  function Built(w: World, e: Event, defaultTopic: GoString): Samples {
    if Drains(w, e) then Site(w, e, defaultTopic) + DrainOutput(Fired(w, e), DrainOrder(e)) else []
  }

  function Next(w: World, e: Event, defaultTopic: GoString): World
    requires Legal(w, e, defaultTopic)
  {
    World(w.open && !e.Closing?, if Drains(w, e) then Drained(Fired(w, e), DrainOrder(e)) else Fired(w, e))
  }

  predicate IsRun(es: seq<Event>, ws: seq<World>, defaultTopic: GoString) {
    && |ws| == |es| + 1
    && forall i | 0 <= i < |es| :: Legal(ws[i], es[i], defaultTopic) && ws[i + 1] == Next(ws[i], es[i], defaultTopic)
  }

  /** Every sample built in a run, event by event. */
  function BuiltIn(es: seq<Event>, ws: seq<World>, defaultTopic: GoString): seq<Samples>
    requires |es| < |ws|
  {
    seq(|es|, i requires 0 <= i < |es| => Built(ws[i], es[i], defaultTopic))
  }

  /** Every result of a run, call by call. */
  function AcksIn(es: seq<Event>, ws: seq<World>): seq<seq<Ack>>
    requires |es| < |ws|
  {
    seq(|es|, i requires 0 <= i < |es| => AcksBy(ws[i], es[i]))
  }

  /** Every record given to the client in a run, call by call. */
  function SentIn(es: seq<Event>, ws: seq<World>): seq<seq<Record>>
    requires |es| < |ws|
  {
    seq(|es|, i requires 0 <= i < |es| => SentBy(ws[i], es[i]))
  }

  // ----- counters agree with results

  lemma {:induction false} ResultsConcat(a: seq<Ack>, b: seq<Ack>, defaultTopic: GoString, t: GoString)
    ensures Successes(a + b, defaultTopic, t) == Successes(a, defaultTopic, t) + Successes(b, defaultTopic, t)
    ensures SuccessBytes(a + b, defaultTopic, t) == SuccessBytes(a, defaultTopic, t) + SuccessBytes(b, defaultTopic, t)
    ensures Failures(a + b) == Failures(a) + Failures(b)
  {
    if b == [] {
      assert a + b == a;
    } else {
      ResultsConcat(a, b[..|b| - 1], defaultTopic, t);
      assert (a + b)[..|a + b| - 1] == a + b[..|b| - 1];
    }
  }

  /** What k6 adds up from out is what these results amount to. */
  ghost predicate Reported(out: Samples, acks: seq<Ack>, defaultTopic: GoString, t: GoString) {
    && Sum(out, WriterMessageCount, Some(t)) == Successes(acks, defaultTopic, t)
    && Sum(out, WriterMessageBytes, Some(t)) == SuccessBytes(acks, defaultTopic, t)
    && Sum(out, WriterErrorCount, None) == Failures(acks)
  }

  lemma EventReports(w: World, e: Event, defaultTopic: GoString, t: GoString)
    requires Legal(w, e, defaultTopic)
    ensures Reported(Built(w, e, defaultTopic), AcksBy(w, e), defaultTopic, t)
  {
    if Sends(w, e) {
      ProduceReports(AcksBy(w, e), defaultTopic, e.o.site, Fired(w, e), DrainOrder(e), t);
    } else if Drains(w, e) {
      SiteOnly([], Fired(w, e), DrainOrder(e), WriterMessageCount, Some(t));
      SiteOnly([], Fired(w, e), DrainOrder(e), WriterMessageBytes, Some(t));
      SiteOnly([], Fired(w, e), DrainOrder(e), WriterErrorCount, None);
    }
  }

  lemma {:induction false} ReportedFlat(outs: seq<Samples>, results: seq<seq<Ack>>, defaultTopic: GoString, t: GoString)
    requires |outs| == |results|
    requires forall i | 0 <= i < |outs| :: Reported(outs[i], results[i], defaultTopic, t)
    ensures Reported(Flat(outs), Flat(results), defaultTopic, t)
  {
    if outs != [] {
      var n := |outs| - 1;
      ReportedFlat(outs[..n], results[..n], defaultTopic, t);
      ResultsConcat(Flat(results[..n]), results[n], defaultTopic, t);
      SumConcat(Flat(outs[..n]), outs[n], WriterMessageCount, Some(t));
      SumConcat(Flat(outs[..n]), outs[n], WriterMessageBytes, Some(t));
      SumConcat(Flat(outs[..n]), outs[n], WriterErrorCount, None);
    }
  }

  /** Over any run, on every topic, the message and byte counters add up to the
      successes and their bytes, and the error counter to the failures. */
  lemma ResultsAgree(es: seq<Event>, ws: seq<World>, defaultTopic: GoString, t: GoString)
    requires IsRun(es, ws, defaultTopic)
    ensures Reported(Flat(BuiltIn(es, ws, defaultTopic)), Flat(AcksIn(es, ws)), defaultTopic, t)
  {
    forall i | 0 <= i < |es|
      ensures Reported(BuiltIn(es, ws, defaultTopic)[i], AcksIn(es, ws)[i], defaultTopic, t)
    {
      EventReports(ws[i], es[i], defaultTopic, t);
    }
    ReportedFlat(BuiltIn(es, ws, defaultTopic), AcksIn(es, ws), defaultTopic, t);
  }

  /** The message counter summed over some topics. */
  function MessagesAcross(out: Samples, topics: seq<GoString>): int {
    if topics == [] then 0
    else MessagesAcross(out, topics[..|topics| - 1]) + Sum(out, WriterMessageCount, Some(topics[|topics| - 1]))
  }

  lemma {:induction false} AcrossAgree(out: Samples, acks: seq<Ack>, defaultTopic: GoString, topics: seq<GoString>)
    requires forall t :: Reported(out, acks, defaultTopic, t)
    ensures MessagesAcross(out, topics) == Across(AccountOf(acks, defaultTopic).counts, topics)
  {
    if topics != [] {
      var last := topics[|topics| - 1];
      AcrossAgree(out, acks, defaultTopic, topics[..|topics| - 1]);
      AccountExact(acks, defaultTopic, last);
      assert Reported(out, acks, defaultTopic, last);
    }
  }

  lemma {:induction false} SameLengths(a: seq<seq<Ack>>, b: seq<seq<Record>>)
    requires |a| == |b| && forall i | 0 <= i < |a| :: |a[i]| == |b[i]|
    ensures |Flat(a)| == |Flat(b)|
  {
    if a != [] {
      SameLengths(a[..|a| - 1], b[..|b| - 1]);
    }
  }

  /** The topics differ, and every success is charged to one of them. */
  predicate Cover(topics: seq<GoString>, acks: seq<Ack>, defaultTopic: GoString) {
    && (forall i, j | 0 <= i < j < |topics| :: topics[i] != topics[j])
    && (forall i | 0 <= i < |acks| && acks[i].err.None? :: TopicOf(acks[i].record, defaultTopic) in topics)
  }

  lemma ReportedCounted(out: Samples, acks: seq<Ack>, defaultTopic: GoString, topics: seq<GoString>)
    requires forall t :: Reported(out, acks, defaultTopic, t)
    requires Cover(topics, acks, defaultTopic)
    ensures MessagesAcross(out, topics) + Sum(out, WriterErrorCount, None) == |acks|
  {
    assert Reported(out, acks, defaultTopic, defaultTopic);
    AcrossAgree(out, acks, defaultTopic, topics);
    AcrossResults(acks, defaultTopic, topics);
  }

  lemma OneResultPerRecord(es: seq<Event>, ws: seq<World>, defaultTopic: GoString)
    requires IsRun(es, ws, defaultTopic)
    ensures |Flat(AcksIn(es, ws))| == |Flat(SentIn(es, ws))|
  {
    SameLengths(AcksIn(es, ws), SentIn(es, ws));
  }

  /** Over any run, the message counter over all topics that succeeded and the error
      counter add up to the number of records given to the client. */
  lemma EveryRecordCounted(es: seq<Event>, ws: seq<World>, defaultTopic: GoString, topics: seq<GoString>)
    requires IsRun(es, ws, defaultTopic) && Cover(topics, Flat(AcksIn(es, ws)), defaultTopic)
    ensures var out := Flat(BuiltIn(es, ws, defaultTopic));
            MessagesAcross(out, topics) + Sum(out, WriterErrorCount, None) == |Flat(SentIn(es, ws))|
  {
    var out, acks := Flat(BuiltIn(es, ws, defaultTopic)), Flat(AcksIn(es, ws));
    forall t
      ensures Reported(out, acks, defaultTopic, t)
    {
      ResultsAgree(es, ws, defaultTopic, t);
    }
    ReportedCounted(out, acks, defaultTopic, topics);
    OneResultPerRecord(es, ws, defaultTopic);
  }

  // ----- hook metrics

  /** A run of a new writer. */
  predicate IsWriterRun(es: seq<Event>, ws: seq<World>, defaultTopic: GoString) {
    IsRun(es, ws, defaultTopic) && ws[0].mc == Init(Writer)
  }

  /** The hooks fired in a run, event by event. */
  function FiredIn(es: seq<Event>, ws: seq<World>): seq<seq<Hook>>
    requires |es| < |ws|
  {
    seq(|es|, i requires 0 <= i < |es| => FiredBy(ws[i], es[i]))
  }

  /** What the first n events built, and the hooks fired in them. */
  function BuiltUpTo(es: seq<Event>, ws: seq<World>, defaultTopic: GoString, n: nat): Samples
    requires n <= |es| < |ws|
  {
    Flat(BuiltIn(es, ws, defaultTopic)[..n])
  }

  function FiredUpTo(es: seq<Event>, ws: seq<World>, n: nat): seq<Hook>
    requires n <= |es| < |ws|
  {
    Flat(FiredIn(es, ws)[..n])
  }

  /** An event as the collector sees it. */
  function SeenBy(w: World, e: Event, defaultTopic: GoString): FR.Seen {
    FR.Seen(FiredBy(w, e), if Drains(w, e) then Some(FR.Flush(Site(w, e, defaultTopic), DrainOrder(e))) else None)
  }

  function SeenIn(es: seq<Event>, ws: seq<World>, defaultTopic: GoString): seq<FR.Seen>
    requires |es| < |ws|
  {
    seq(|es|, i requires 0 <= i < |es| => SeenBy(ws[i], es[i], defaultTopic))
  }

  function StatesIn(ws: seq<World>): seq<State> {
    seq(|ws|, i requires 0 <= i < |ws| => ws[i].mc)
  }

  lemma SeenStep(w: World, e: Event, defaultTopic: GoString)
    requires Legal(w, e, defaultTopic)
    ensures FR.Legal(w.mc, SeenBy(w, e, defaultTopic))
    ensures FR.Next(w.mc, SeenBy(w, e, defaultTopic)) == Next(w, e, defaultTopic).mc
    ensures FR.BuiltBy(w.mc, SeenBy(w, e, defaultTopic)) == Built(w, e, defaultTopic)
  {
    if Sends(w, e) {
      var a := AccountOf(AcksBy(w, e), defaultTopic);
      PerTopicMetrics(WriterMessageCount, WriterMessageBytes, a.counts, a.bytes, e.o.site);
    }
  }

  /** A run of a writer is a run of flushes on its collector. */
  lemma IsFlushRun(es: seq<Event>, ws: seq<World>, defaultTopic: GoString, n: nat)
    requires IsWriterRun(es, ws, defaultTopic) && n <= |es|
    ensures FR.IsRun(Writer, SeenIn(es, ws, defaultTopic), StatesIn(ws))
    ensures FR.BuiltUpTo(SeenIn(es, ws, defaultTopic), StatesIn(ws), n) == BuiltUpTo(es, ws, defaultTopic, n)
    ensures FR.FiredUpTo(SeenIn(es, ws, defaultTopic), n) == FiredUpTo(es, ws, n)
  {
    forall i | 0 <= i < |es|
      ensures FR.Legal(ws[i].mc, SeenBy(ws[i], es[i], defaultTopic))
      ensures FR.Next(ws[i].mc, SeenBy(ws[i], es[i], defaultTopic)) == ws[i + 1].mc
      ensures FR.BuiltBy(ws[i].mc, SeenBy(ws[i], es[i], defaultTopic)) == Built(ws[i], es[i], defaultTopic)
    {
      SeenStep(ws[i], es[i], defaultTopic);
    }
    assert FR.BuiltIn(SeenIn(es, ws, defaultTopic), StatesIn(ws)) == BuiltIn(es, ws, defaultTopic);
    assert FR.FiredIn(SeenIn(es, ws, defaultTopic)) == FiredIn(es, ws);
  }

  /** After any number of events, the dial, write and wait times and the sizes and
      bytes of produced batches built so far, followed by those buffered, are the
      ones the hooks reported, in order. */
  lemma WriterTrendsConserved(es: seq<Event>, ws: seq<World>, defaultTopic: GoString, n: nat)
    requires IsWriterRun(es, ws, defaultTopic) && n <= |es|
    ensures CR.TimingsConserved(Writer, BuiltUpTo(es, ws, defaultTopic, n), ws[n].mc, FiredUpTo(es, ws, n))
    ensures CR.BatchesConserved(Writer, BuiltUpTo(es, ws, defaultTopic, n), ws[n].mc, FiredUpTo(es, ws, n))
  {
    IsFlushRun(es, ws, defaultTopic, n);
    FR.TrendsConserved(Writer, SeenIn(es, ws, defaultTopic), StatesIn(ws), n);
  }

  /** After any number of events, pending deltas equal buffer lengths, and the dial
      and write counters built so far plus the pending deltas are the numbers of
      dials and of each topic's batches. */
  lemma WriterCountsConserved(es: seq<Event>, ws: seq<World>, defaultTopic: GoString, n: nat, t: GoString)
    requires IsWriterRun(es, ws, defaultTopic) && n <= |es|
    ensures CR.Balanced(ws[n].mc) && CR.TopicBalanced(ws[n].mc, t)
    ensures CR.CountsConserved(Writer, BuiltUpTo(es, ws, defaultTopic, n), ws[n].mc, FiredUpTo(es, ws, n), t)
  {
    IsFlushRun(es, ws, defaultTopic, n);
    FR.CountsConserved(Writer, SeenIn(es, ws, defaultTopic), StatesIn(ws), n, t);
  }

  /** Every call that reaches the client, and closing an open writer with VU state,
      leaves nothing pending: every dial and batch its hooks reported so far has
      been counted, and every trend value built. */
  lemma DrainCompletes(es: seq<Event>, ws: seq<World>, defaultTopic: GoString, n: nat, t: GoString)
    requires IsWriterRun(es, ws, defaultTopic) && n < |es| && Drains(ws[n], es[n])
    ensures var out, hs := BuiltUpTo(es, ws, defaultTopic, n + 1), FiredUpTo(es, ws, n + 1);
            Sum(out, WriterDialCount, None) == |CR.DialsSeen(hs)|
            && Sum(out, WriterWriteCount, Some(t)) == CountTopic(CR.SizesSeen(hs), t)
            && Emitted(out, WriterDialSeconds) == AsSamples(WriterDialSeconds, CR.DialsSeen(hs))
            && Emitted(out, WriterWriteSeconds) == AsSamples(WriterWriteSeconds, CR.TookSeen(Writer, hs))
            && Emitted(out, WriterWaitSeconds) == AsSamples(WriterWaitSeconds, CR.WaitSeen(Writer, hs))
            && Emitted(out, WriterBatchSize) == AsTagged(WriterBatchSize, CR.SizesSeen(hs))
            && Emitted(out, WriterBatchBytes) == AsTagged(WriterBatchBytes, CR.BytesSeen(hs))
  {
    IsFlushRun(es, ws, defaultTopic, n + 1);
    FR.FlushCompletes(Writer, SeenIn(es, ws, defaultTopic), StatesIn(ws), n, t);
  }
}
