/**
 What a reader's calls do to the hook metrics: every dial, request time and fetch
 batch is reported once, over any run of consumes, closes and hooks
 (pkg/kafka/consumer.go:242-337, pkg/kafka/metrics.go:137-189, 233-277).
 */
module ReaderHooks {
  import opened Prelude
  import opened Metrics
  import opened Collector
  import CR = CollectorRuns
  import FR = FlushRuns
  import opened CallSite
  import opened Consumer
  import opened ConsumerRuns

  /** A run of a new reader. */
  predicate IsReaderRun(es: seq<Event>, ws: seq<World>) {
    IsRun(es, ws) && ws[0].mc == Init(Reader)
  }

  /** The hooks fired in a run, event by event. */
  function FiredIn(es: seq<Event>, ws: seq<World>): seq<seq<Hook>>
    requires |es| < |ws|
  {
    seq(|es|, i requires 0 <= i < |es| => FiredBy(ws[i], es[i]))
  }

  /** What the first n events built, and the hooks fired in them. */
  function BuiltUpTo(es: seq<Event>, ws: seq<World>, n: nat): Samples
    requires n <= |es| < |ws|
  {
    Flat(BuiltIn(es, ws)[..n])
  }

  function FiredUpTo(es: seq<Event>, ws: seq<World>, n: nat): seq<Hook>
    requires n <= |es| < |ws|
  {
    Flat(FiredIn(es, ws)[..n])
  }

  /** An event as the collector sees it. */
  function SeenBy(w: World, e: Event): FR.Seen {
    FR.Seen(FiredBy(w, e), if Drains(w, e) then Some(FR.Flush(Site(w, e), DrainOrder(e))) else None)
  }

  function SeenIn(es: seq<Event>, ws: seq<World>): seq<FR.Seen>
    requires |es| < |ws|
  {
    seq(|es|, i requires 0 <= i < |es| => SeenBy(ws[i], es[i]))
  }

  function StatesIn(ws: seq<World>): seq<State> {
    seq(|ws|, i requires 0 <= i < |ws| => ws[i].mc)
  }

  lemma ConsumeSiteOwn(x: Tally, order: seq<GoString>)
    ensures FR.OwnMetrics(ConsumeSite(x, order))
  {
    PerTopicMetrics(ReaderMessageCount, ReaderMessageBytes, x.counts, x.bytes, order);
  }

  lemma SiteOwn(w: World, e: Event)
    ensures FR.OwnMetrics(Site(w, e))
  {
    if e.Consuming? && CallOf(w, e).flush.Some? {
      ConsumeSiteOwn(CallTally(w, e), e.o.site);
    }
  }

  lemma SeenStep(w: World, e: Event)
    requires Legal(w, e)
    ensures FR.Legal(w.mc, SeenBy(w, e)) && FR.Next(w.mc, SeenBy(w, e)) == Next(w, e).mc
    ensures FR.BuiltBy(w.mc, SeenBy(w, e)) == Built(w, e)
  {
    SiteOwn(w, e);
  }

  /** A run of a reader is a run of flushes on its collector. */
  lemma IsFlushRun(es: seq<Event>, ws: seq<World>, n: nat)
    requires IsReaderRun(es, ws) && n <= |es|
    ensures FR.IsRun(Reader, SeenIn(es, ws), StatesIn(ws))
    ensures FR.BuiltUpTo(SeenIn(es, ws), StatesIn(ws), n) == BuiltUpTo(es, ws, n)
    ensures FR.FiredUpTo(SeenIn(es, ws), n) == FiredUpTo(es, ws, n)
  {
    forall i | 0 <= i < |es|
      ensures FR.Legal(ws[i].mc, SeenBy(ws[i], es[i]))
      ensures FR.Next(ws[i].mc, SeenBy(ws[i], es[i])) == ws[i + 1].mc
      ensures FR.BuiltBy(ws[i].mc, SeenBy(ws[i], es[i])) == Built(ws[i], es[i])
    {
      SeenStep(ws[i], es[i]);
    }
    assert FR.BuiltIn(SeenIn(es, ws), StatesIn(ws)) == BuiltIn(es, ws);
    assert FR.FiredIn(SeenIn(es, ws)) == FiredIn(es, ws);
  }

  /** After any number of events, the connection and request times built so far,
      followed by those buffered, are the ones the hooks reported, in order. */
  lemma ReaderTimingsConserved(es: seq<Event>, ws: seq<World>, n: nat)
    requires IsReaderRun(es, ws) && n <= |es|
    ensures CR.TimingsConserved(Reader, BuiltUpTo(es, ws, n), ws[n].mc, FiredUpTo(es, ws, n))
  {
    IsFlushRun(es, ws, n);
    FR.TrendsConserved(Reader, SeenIn(es, ws), StatesIn(ws), n);
  }

  /** The same for the size and bytes of fetched batches. */
  lemma ReaderBatchesConserved(es: seq<Event>, ws: seq<World>, n: nat)
    requires IsReaderRun(es, ws) && n <= |es|
    ensures CR.BatchesConserved(Reader, BuiltUpTo(es, ws, n), ws[n].mc, FiredUpTo(es, ws, n))
  {
    IsFlushRun(es, ws, n);
    FR.TrendsConserved(Reader, SeenIn(es, ws), StatesIn(ws), n);
  }

  /** After any number of events, pending deltas equal buffer lengths, and the dial
      and fetch counters built so far plus the pending deltas are the numbers of
      dials and of each topic's batches. */
  lemma ReaderCountsConserved(es: seq<Event>, ws: seq<World>, n: nat, t: GoString)
    requires IsReaderRun(es, ws) && n <= |es|
    ensures CR.Balanced(ws[n].mc) && CR.TopicBalanced(ws[n].mc, t)
    ensures CR.CountsConserved(Reader, BuiltUpTo(es, ws, n), ws[n].mc, FiredUpTo(es, ws, n), t)
  {
    IsFlushRun(es, ws, n);
    FR.CountsConserved(Reader, SeenIn(es, ws), StatesIn(ws), n, t);
  }

  /** Closing an open reader with VU state leaves nothing pending: every dial and
      batch its hooks reported so far has been counted, and every trend value built. */
  lemma CloseCompletes(es: seq<Event>, ws: seq<World>, n: nat, t: GoString)
    requires IsReaderRun(es, ws) && n < |es|
    requires es[n].Closing? && es[n].closeState && ws[n].open
    ensures var out, hs := BuiltUpTo(es, ws, n + 1), FiredUpTo(es, ws, n + 1);
            Sum(out, ReaderDialCount, None) == |CR.DialsSeen(hs)|
            && Sum(out, ReaderFetchesCount, Some(t)) == CountTopic(CR.SizesSeen(hs), t)
            && Emitted(out, ReaderDialSeconds) == AsSamples(ReaderDialSeconds, CR.DialsSeen(hs))
            && Emitted(out, ReaderReadSeconds) == AsSamples(ReaderReadSeconds, CR.TookSeen(Reader, hs))
            && Emitted(out, ReaderWaitSeconds) == AsSamples(ReaderWaitSeconds, CR.WaitSeen(Reader, hs))
            && Emitted(out, ReaderFetchSize) == AsTagged(ReaderFetchSize, CR.SizesSeen(hs))
            && Emitted(out, ReaderFetchBytes) == AsTagged(ReaderFetchBytes, CR.BytesSeen(hs))
  {
    IsFlushRun(es, ws, n + 1);
    FR.FlushCompletes(Reader, SeenIn(es, ws), StatesIn(ws), n, t);
  }
}
