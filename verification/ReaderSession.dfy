/**
 A session on the reader object: the calls a script makes, with hooks in between,
 behave as the runs of ConsumerRuns (pkg/kafka/consumer.go:239-337).
 */
module ReaderSession {
  import opened Prelude
  import opened Metrics
  import opened Collector
  import opened Consumer
  import opened ConsumerRuns

  /** What a script asks of its reader, or what happens to it in between. */
  datatype Ask =
    | ToConsume(hasState: bool, cfg: ConsumeConfig, env: CallEnv)
    | ToClose(closeState: bool, before: seq<Hook>)
    | ToFire(hooks: seq<Hook>)

  /** e is what was asked, with the map orders it took. */
  predicate Answers(e: Event, ask: Ask) {
    match ask
    case ToConsume(hasState, cfg, env) => e.Consuming? && e.hasState == hasState && e.cfg == cfg && e.env == env
    case ToClose(closeState, before) => e.Closing? && e.closeState == closeState && e.before == before
    case ToFire(hooks) => e == Firing(hooks)
  }

  /** One event of a session: what was asked, what came of it, and the samples built. */
  predicate Yields(ask: Ask, w: World, e: Event, outcome: Outcome, built: Samples) {
    Answers(e, ask) && outcome == CallOf(w, e).outcome && built == Built(w, e)
  }

  /** The object is in the state w; a closed reader no longer has its stream. */
  ghost predicate Represents(r: Reader, w: World)
    reads r, r.client, r.collector
  {
    && w.open == (r.client != null)
    && (r.client != null ==> r.client.backlog == w.backlog)
    && w.mc == r.collector.View()
  }

  /** One call on the object is one event of the run. */
  method Step(r: Reader, ask: Ask, ghost w: World) returns (e: Event, outcome: Outcome, built: Samples)
    requires Represents(r, w)
    modifies r, r.client, r.collector
    ensures r.client == old(r.client) || r.client == null
    ensures Legal(w, e) && Represents(r, Next(w, e)) && Yields(ask, w, e, outcome, built)
  {
    outcome := Returned([]);
    match ask {
      case ToConsume(hasState, cfg, env) =>
        var o;
        outcome, built, o := r.Consume(hasState, cfg, env);
        e := Consuming(hasState, cfg, env, o);
      case ToClose(closeState, before) =>
        var drain;
        built, drain := r.Close(closeState, before);
        e := Closing(closeState, before, drain);
      case ToFire(hooks) =>
        FireHooks(r.collector, hooks);
        built, e := [], Firing(hooks);
    }
  }

  /** es answers asks, and outcomes and built are those of the run. */
  predicate IsSession(
    asks: seq<Ask>, es: seq<Event>, ws: seq<World>, outcomes: seq<Outcome>, built: seq<Samples>)
  {
    && IsRun(es, ws)
    && |es| == |asks| == |outcomes| == |built|
    && forall i | 0 <= i < |es| :: Yields(asks[i], ws[i], es[i], outcomes[i], built[i])
  }

  lemma RunExtends(es: seq<Event>, ws: seq<World>, e: Event, w: World, w': World)
    requires IsRun(es, ws) && w == ws[|es|] && Legal(w, e) && w' == Next(w, e)
    ensures IsRun(es + [e], ws + [w'])
  {
  }

  lemma SessionExtends(
    asks: seq<Ask>, es: seq<Event>, ws: seq<World>, outcomes: seq<Outcome>, built: seq<Samples>,
    ask: Ask, e: Event, w: World, w': World, outcome: Outcome, out: Samples)
    requires IsSession(asks, es, ws, outcomes, built) && w == ws[|es|]
    requires Legal(w, e) && w' == Next(w, e) && Yields(ask, w, e, outcome, out)
    ensures IsSession(asks + [ask], es + [e], ws + [w'], outcomes + [outcome], built + [out])
  {
    RunExtends(es, ws, e, w, w');
  }

  /** A whole session: the outcomes and samples it yields are those of a run that
      starts where the object stood and ends where it stands. */
  method RunReader(r: Reader, asks: seq<Ask>)
    returns (es: seq<Event>, ws: seq<World>, outcomes: seq<Outcome>, built: seq<Samples>)
    modifies r, r.client, r.collector
    ensures IsSession(asks, es, ws, outcomes, built)
    ensures ws[0] == old(World(r.client != null, r.Backlog(), r.collector.View()))
    ensures Represents(r, ws[|es|])
  {
    var w := World(r.client != null, r.Backlog(), r.collector.View());
    es, ws, outcomes, built := [], [w], [], [];
    ghost var start := w;
    for i := 0 to |asks|
      invariant r.client == old(r.client) || r.client == null
      invariant IsSession(asks[..i], es, ws, outcomes, built) && ws[0] == start
      invariant w == ws[|es|] && Represents(r, w)
    {
      var e, outcome, out := Step(r, asks[i], w);
      var w' := Next(w, e);
      SessionExtends(asks[..i], es, ws, outcomes, built, asks[i], e, w, w', outcome, out);
      assert asks[..i + 1] == asks[..i] + [asks[i]];
      w := w';
      es, ws, outcomes, built := es + [e], ws + [w], outcomes + [outcome], built + [out];
    }
    assert asks[..|asks|] == asks;
  }

  /** What the script holds after these outcomes, call by call. */
  function Received(outcomes: seq<Outcome>): seq<seq<Message>> {
    seq(|outcomes|, i requires 0 <= i < |outcomes| => if outcomes[i].Returned? then outcomes[i].messages else [])
  }

  /** In a session, k6's counters and trends are those of the messages the script
      received, topic by topic and in order. */
  lemma SessionAgrees(
    asks: seq<Ask>, es: seq<Event>, ws: seq<World>, outcomes: seq<Outcome>, built: seq<Samples>, t: GoString)
    requires IsSession(asks, es, ws, outcomes, built)
    ensures CountsReported(Flat(built), Flat(Received(outcomes)), t)
    ensures TrendsReported(Flat(built), Flat(Received(outcomes)))
  {
    assert built == BuiltIn(es, ws);
    assert Received(outcomes) == GivenIn(es, ws);
    CountsAgree(es, ws, t);
    TrendsAgree(es, ws);
  }
}
