/**
 A session on the writer object: the calls a script makes, with hooks in between,
 behave as the runs of ProducerRuns (pkg/kafka/producer.go:178-233).
 */
module WriterSession {
  import opened Prelude
  import opened Metrics
  import opened Collector
  import opened Producer
  import opened ProducerRuns

  /** What a script asks of its writer, or what happens to it in between. */
  datatype Ask =
    | ToProduce(hasState: bool, messages: seq<ProduceMessage>, ds: seq<Delivery>, during: seq<Hook>)
    | ToClose(closeState: bool, before: seq<Hook>)
    | ToFire(hooks: seq<Hook>)

  /** If the call reaches the client of a writer that is open or not, ProduceSync
      answers it with one result per record. */
  predicate Delivered(ask: Ask, open: bool) {
    ask.ToProduce? && ask.hasState && open ==> OneEach(ask.ds, |ask.messages|)
  }

  /** Whether a writer is still open before the i-th call. */
  predicate OpenAt(open: bool, asks: seq<Ask>, i: nat)
    requires i <= |asks|
  {
    open && forall j | 0 <= j < i :: !asks[j].ToClose?
  }

  /** e is what was asked of a writer in the state w, with the map orders it took; the
      records given to the client are the messages, marshaled. */
  ghost predicate Answers(wr: Writer, w: World, e: Event, ask: Ask) {
    match ask
    case ToProduce(hasState, messages, ds, during) =>
      e.Producing? && e.hasState == hasState && e.ds == ds && e.during == during
      && (Sends(w, e) ==> wr.Marshals(messages, e.records))
    case ToClose(closeState, before) => e.Closing? && e.closeState == closeState && e.before == before
    case ToFire(hooks) => e == Firing(hooks)
  }

  /** The error an event hands to the script, if it is a call that fails. */
  function ErrorOf(w: World, e: Event): Option<string> {
    if !e.Producing? then None
    else if !e.hasState then Some(NOT_IN_VU)
    else if !w.open then Some(CLOSED)
    else FirstErr(AcksBy(w, e))
  }

  /** One event of a session: what was asked, the error, and the samples built. */
  ghost predicate Yields(wr: Writer, ask: Ask, w: World, e: Event, err: Option<string>, built: Samples) {
    Answers(wr, w, e, ask) && err == ErrorOf(w, e) && built == Built(w, e, wr.defaultTopic)
  }

  ghost predicate Represents(wr: Writer, w: World)
    reads wr, wr.collector
  {
    w.open == wr.open && w.mc == wr.collector.View()
  }

  /** One call on the object is one event of the run. */
  method Step(wr: Writer, ask: Ask, ghost w: World) returns (e: Event, err: Option<string>, built: Samples)
    requires Represents(wr, w) && Delivered(ask, w.open)
    modifies wr, wr.collector
    ensures Legal(w, e, wr.defaultTopic) && Represents(wr, Next(w, e, wr.defaultTopic))
    ensures Yields(wr, ask, w, e, err, built)
  {
    err := None;
    match ask {
      case ToProduce(hasState, messages, ds, during) =>
        var o, records;
        err, built, o, records := wr.Produce(hasState, messages, ds, during);
        e := Producing(hasState, records, ds, during, o);
      case ToClose(closeState, before) =>
        var drain;
        built, drain := wr.Close(closeState, before);
        e := Closing(closeState, before, drain);
      case ToFire(hooks) =>
        FireHooks(wr.collector, hooks);
        built, e := [], Firing(hooks);
    }
  }

  /** es answers asks, and errs and built are those of the run. */
  ghost predicate IsSession(
    wr: Writer, asks: seq<Ask>, es: seq<Event>, ws: seq<World>, errs: seq<Option<string>>, built: seq<Samples>)
  {
    && IsRun(es, ws, wr.defaultTopic)
    && |es| == |asks| == |errs| == |built|
    && forall i | 0 <= i < |es| :: Yields(wr, asks[i], ws[i], es[i], errs[i], built[i])
  }

  lemma RunExtends(es: seq<Event>, ws: seq<World>, e: Event, w: World, w': World, defaultTopic: GoString)
    requires IsRun(es, ws, defaultTopic) && w == ws[|es|]
    requires Legal(w, e, defaultTopic) && w' == Next(w, e, defaultTopic)
    ensures IsRun(es + [e], ws + [w'], defaultTopic)
  {
  }

  lemma SessionExtends(
    wr: Writer, asks: seq<Ask>, es: seq<Event>, ws: seq<World>, errs: seq<Option<string>>, built: seq<Samples>,
    ask: Ask, e: Event, w: World, w': World, err: Option<string>, out: Samples)
    requires IsSession(wr, asks, es, ws, errs, built) && w == ws[|es|]
    requires Legal(w, e, wr.defaultTopic) && w' == Next(w, e, wr.defaultTopic) && Yields(wr, ask, w, e, err, out)
    ensures IsSession(wr, asks + [ask], es + [e], ws + [w'], errs + [err], built + [out])
  {
    RunExtends(es, ws, e, w, w', wr.defaultTopic);
  }

  /** A whole session: the errors and samples it yields are those of a run that
      starts where the object stood and ends where it stands. */
  method RunWriter(wr: Writer, asks: seq<Ask>)
    returns (es: seq<Event>, ws: seq<World>, errs: seq<Option<string>>, built: seq<Samples>)
    requires forall i | 0 <= i < |asks| :: Delivered(asks[i], OpenAt(wr.open, asks, i))
    modifies wr, wr.collector
    ensures IsSession(wr, asks, es, ws, errs, built)
    ensures ws[0] == old(World(wr.open, wr.collector.View()))
    ensures Represents(wr, ws[|es|])
  {
    var w := World(wr.open, wr.collector.View());
    es, ws, errs, built := [], [w], [], [];
    ghost var start := w;
    for i := 0 to |asks|
      invariant IsSession(wr, asks[..i], es, ws, errs, built) && ws[0] == start
      invariant w == ws[|es|] && Represents(wr, w) && w.open == OpenAt(start.open, asks, i)
    {
      var e, err, out := Step(wr, asks[i], w);
      var w' := Next(w, e, wr.defaultTopic);
      SessionExtends(wr, asks[..i], es, ws, errs, built, asks[i], e, w, w', err, out);
      assert asks[..i + 1] == asks[..i] + [asks[i]];
      w := w';
      es, ws, errs, built := es + [e], ws + [w], errs + [err], built + [out];
    }
    assert asks[..|asks|] == asks;
  }

  /** The number of messages each call was asked to produce. */
  function Asked(asks: seq<Ask>): seq<nat> {
    seq(|asks|, i requires 0 <= i < |asks| => if asks[i].ToProduce? then |asks[i].messages| else 0)
  }

  lemma {:induction false} FlatLength<T>(parts: seq<seq<T>>, lengths: seq<nat>)
    requires |parts| == |lengths| && forall i | 0 <= i < |parts| :: |parts[i]| == lengths[i]
    ensures |Flat(parts)| == Total(lengths)
  {
    if parts != [] {
      FlatLength(parts[..|parts| - 1], lengths[..|lengths| - 1]);
    }
  }

  lemma {:induction false} FlatFailures(results: seq<seq<Ack>>, defaultTopic: GoString)
    requires forall i | 0 <= i < |results| :: FirstErr(results[i]).None?
    ensures Failures(Flat(results)) == 0
  {
    if results != [] {
      var n := |results| - 1;
      FlatFailures(results[..n], defaultTopic);
      ResultsConcat(Flat(results[..n]), results[n], defaultTopic, []);
      ErrorsCounted(results[n], defaultTopic);
      ErrCountAt(results[n], defaultTopic);
    }
  }

  lemma CleanCall(wr: Writer, w: World, e: Event, ask: Ask)
    requires Answers(wr, w, e, ask) && ErrorOf(w, e).None?
    ensures |SentBy(w, e)| == if ask.ToProduce? then |ask.messages| else 0
    ensures FirstErr(AcksBy(w, e)).None?
  {
  }

  /** If no call of a session returns an error, k6's message counter over all topics
      is the number of messages the script produced, and its error counter is 0. */
  lemma CleanSessionCounted(
    wr: Writer, asks: seq<Ask>, es: seq<Event>, ws: seq<World>, errs: seq<Option<string>>, built: seq<Samples>,
    topics: seq<GoString>)
    requires IsSession(wr, asks, es, ws, errs, built)
    requires forall i | 0 <= i < |errs| :: errs[i].None?
    requires Cover(topics, Flat(AcksIn(es, ws)), wr.defaultTopic)
    ensures Sum(Flat(built), WriterErrorCount, None) == 0
    ensures MessagesAcross(Flat(built), topics) == Total(Asked(asks))
  {
    forall i | 0 <= i < |es|
      ensures |SentIn(es, ws)[i]| == Asked(asks)[i] && FirstErr(AcksIn(es, ws)[i]).None?
    {
      assert Yields(wr, asks[i], ws[i], es[i], errs[i], built[i]);
      CleanCall(wr, ws[i], es[i], asks[i]);
    }
    assert built == BuiltIn(es, ws, wr.defaultTopic);
    FlatLength(SentIn(es, ws), Asked(asks));
    FlatFailures(AcksIn(es, ws), wr.defaultTopic);
    ResultsAgree(es, ws, wr.defaultTopic, []);
    EveryRecordCounted(es, ws, wr.defaultTopic, topics);
  }
}
