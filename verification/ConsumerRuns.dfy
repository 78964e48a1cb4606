/** Single Consume calls and whole runs of them (pkg/kafka/consumer.go:239-314). */
module ConsumerRuns {
  import opened Prelude
  import opened Metrics
  import opened Collector
  import CR = CollectorRuns
  import opened CallSite
  import opened Consumer

  // ----- how one call is decided

  /** A poll after which the loop goes on, if it has fewer records than asked for. */
  predicate Quiet(p: Poll) {
    !p.ctxDone && p.errs == []
  }

  /** Why the last poll ended the loop: a done context first, then a real error,
      then errors of the wait alone, and only then the limit. */
  function Verdict(p: Poll): Exit {
    if p.ctxDone then Expired
    else if FirstReal(p.errs).Some? then
      FirstRealIn(p.errs);
      Broken(FirstReal(p.errs).value.topic, FirstReal(p.errs).value.message)
    else if p.errs != [] then WaitErrors
    else Full
  }

  /** The loop polls until one poll decides, and every poll before it was quiet. */
  lemma {:induction false} LastPollDecides(
    limit: nat, got: seq<Record>, backlog: seq<Record>, polls: seq<Poll>, n: nat, hooks: seq<Hook>)
    requires n <= |polls| && |got| < limit
    ensures var e := PollLoop(limit, got, backlog, polls, n, hooks);
            n < e.made <= |polls| + 1
            && (forall i | n <= i < e.made - 1 :: Quiet(PollAt(polls, i)))
            && e.exit == Verdict(PollAt(polls, e.made - 1))
            && |e.got| <= limit && (e.exit.Full? ==> |e.got| == limit)
    decreases |polls| - n
  {
    var p := PollAt(polls, n);
    FirstRealIn(p.errs);
    var k := Min(Min(p.avail, |backlog|), limit - |got|);
    if Quiet(p) && |got| + k < limit {
      LastPollDecides(limit, got + backlog[..k], backlog[k..], polls, n + 1, hooks + p.hooks);
    }
  }

  /** The loop takes a prefix of the backlog, in order, and leaves the rest. */
  lemma {:induction false} LoopTakesPrefix(
    limit: nat, got: seq<Record>, backlog: seq<Record>, polls: seq<Poll>, n: nat, hooks: seq<Hook>)
    requires n <= |polls|
    ensures var e := PollLoop(limit, got, backlog, polls, n, hooks);
            e.got + e.rest == got + backlog && |got| <= |e.got|
    decreases |polls| - n
  {
    if |got| < limit {
      var p := PollAt(polls, n);
      var k := Min(Min(p.avail, |backlog|), limit - |got|);
      assert backlog == backlog[..k] + backlog[k..];
      assert (got + backlog[..k]) + backlog[k..] == got + backlog;
      if Quiet(p) {
        LoopTakesPrefix(limit, got + backlog[..k], backlog[k..], polls, n + 1, hooks + p.hooks);
      }
    }
  }

  /** A call never returns more than its limit. It fails with a fetch error exactly
      when the poll that ended the loop carried a real error under a live context,
      however many records it also carried; and it returns fewer than its limit only
      after an expected timeout, or after a poll with nothing but wait errors whose
      context was still live. */
  lemma ConsumeDecided(backlog: seq<Record>, cfg: ConsumeConfig, env: CallEnv)
    requires cfg.limit > 0
    ensures var call := ConsumeSpec(true, true, backlog, cfg, env);
            var made := PollLoop(cfg.limit, [], backlog, env.polls, 0, []).made;
            && 1 <= made <= |env.polls| + 1
            && (forall i | 0 <= i < made - 1 :: Quiet(PollAt(env.polls, i)))
            && var p := PollAt(env.polls, made - 1);
               (forall topic, message ::
                  call.outcome == Failed(FetchFailed(topic, message))
                  <==> !p.ctxDone && exists i: nat :: FirstRealAt(p.errs, i) && p.errs[i] == Real(topic, message))
               && (call.outcome == Failed(Canceled)
                   <==> |call.taken| < cfg.limit && (p.ctxDone || env.lateDone) && env.parentDone
                        && !Verdict(p).Broken?)
               && (call.outcome.Failed? && call.outcome.failure.TimedOut?
                   <==> |call.taken| < cfg.limit && (p.ctxDone || env.lateDone) && !env.parentDone
                        && !cfg.expectTimeout && !Verdict(p).Broken?)
               && (call.outcome.Failed? && call.outcome.failure.TimedOut? ==>
                   call.outcome.failure.got == |call.taken|)
               && (call.outcome.Returned? ==>
                   |call.outcome.messages| <= cfg.limit
                   && (|call.outcome.messages| < cfg.limit ==>
                         (cfg.expectTimeout && !env.parentDone && (p.ctxDone || env.lateDone))
                         || (Verdict(p).WaitErrors? && !env.lateDone)))
  {
    LastPollDecides(cfg.limit, [], backlog, env.polls, 0, []);
    var e := PollLoop(cfg.limit, [], backlog, env.polls, 0, []);
    FirstRealIn(PollAt(env.polls, e.made - 1).errs);
    assert e.exit == Verdict(PollAt(env.polls, e.made - 1));
  }

  /** What fails before anything is polled, and the call that asks for nothing. */
  lemma ConsumeRefused(hasState: bool, open: bool, backlog: seq<Record>, cfg: ConsumeConfig, env: CallEnv)
    ensures var call := ConsumeSpec(hasState, open, backlog, cfg, env);
            && (call.outcome == Failed(NotInVU) <==> !hasState)
            && (call.outcome == Failed(Closed) <==> hasState && !open)
            && (hasState && open && cfg.limit <= 0 ==> call.outcome == Returned([]))
            && (call.flush.None? <==> !hasState || !open || cfg.limit <= 0)
            && (call.flush.None? ==> call.taken == [] && call.rest == backlog && call.hooks == [])
  {
  }

  // ----- runs of calls

  /** A reader: whether it is open, the records still to come, and its collector. */
  datatype World = World(open: bool, backlog: seq<Record>, mc: State)

  /** A Consume call, a Close, with the hooks that fired before its drain, or hooks
      that fire between calls or after the close. */
  datatype Event =
    | Consuming(hasState: bool, cfg: ConsumeConfig, env: CallEnv, o: Orders)
    | Closing(closeState: bool, before: seq<Hook>, drain: seq<GoString>)
    | Firing(hooks: seq<Hook>)

  function CallOf(w: World, e: Event): Call {
    match e
    case Consuming(hasState, cfg, env, _) => ConsumeSpec(hasState, w.open, w.backlog, cfg, env)
    case _ => Call([], w.backlog, [], Returned([]), None)
  }

  /** The hooks that fire in an event, before its drain if it has one. */
  function FiredBy(w: World, e: Event): seq<Hook> {
    match e
    case Consuming(_, _, _, _) => CallOf(w, e).hooks
    case Closing(_, before, _) => if w.open then before else []
    case Firing(hooks) => hooks
  }

  predicate Drains(w: World, e: Event) {
    match e
    case Consuming(_, _, _, _) => CallOf(w, e).flush.Some?
    case Closing(closeState, _, _) => w.open && closeState
    case Firing(_) => false
  }

  function DrainOrder(e: Event): seq<GoString> {
    match e
    case Consuming(_, _, _, o) => o.drain
    case Closing(_, _, drain) => drain
    case Firing(_) => []
  }

  /** The collector just before an event's drain. */
  function Fired(w: World, e: Event): State {
    AfterHooks(w.mc, FiredBy(w, e))
  }

  function CallTally(w: World, e: Event): Tally
    requires CallOf(w, e).flush.Some?
  {
    TallyOf(CallOf(w, e).taken, CallOf(w, e).flush.value)
  }

  predicate Legal(w: World, e: Event) {
    && (e.Consuming? && CallOf(w, e).flush.Some? ==> IsOrder(e.o.site, CallTally(w, e).counts.Keys))
    && (Drains(w, e) ==> IsOrder(DrainOrder(e), Fired(w, e).batchCount.Keys))
  }

  /** The samples an event adds itself. */
  function Site(w: World, e: Event): Samples {
    if e.Consuming? && CallOf(w, e).flush.Some? then ConsumeSite(CallTally(w, e), e.o.site) else []
  }

  /** The samples an event builds. */
  function Built(w: World, e: Event): Samples {
    if Drains(w, e) then Site(w, e) + DrainOutput(Fired(w, e), DrainOrder(e)) else []
  }

  function Next(w: World, e: Event): World
    requires Legal(w, e)
  {
    World(w.open && !e.Closing?, CallOf(w, e).rest,
          if Drains(w, e) then Drained(Fired(w, e), DrainOrder(e)) else Fired(w, e))
  }

  predicate IsRun(es: seq<Event>, ws: seq<World>) {
    && |ws| == |es| + 1
    && forall i | 0 <= i < |es| :: Legal(ws[i], es[i]) && ws[i + 1] == Next(ws[i], es[i])
  }

  /** What one call hands to the script. */
  function Given(c: Call): seq<Message> {
    if c.outcome.Returned? then c.outcome.messages else []
  }

  /** Every sample built in a run, call by call. */
  function BuiltIn(es: seq<Event>, ws: seq<World>): seq<Samples>
    requires |es| < |ws|
  {
    seq(|es|, i requires 0 <= i < |es| => Built(ws[i], es[i]))
  }

  /** The records polled in a run, call by call. */
  function PolledIn(es: seq<Event>, ws: seq<World>): seq<seq<Record>>
    requires |es| < |ws|
  {
    seq(|es|, i requires 0 <= i < |es| => CallOf(ws[i], es[i]).taken)
  }

  /** What the script got in a run, call by call. */
  function GivenIn(es: seq<Event>, ws: seq<World>): seq<seq<Message>>
    requires |es| < |ws|
  {
    seq(|es|, i requires 0 <= i < |es| => Given(CallOf(ws[i], es[i])))
  }

  /** The call ended because maxWait ran out. */
  predicate EndedByMaxWait(w: World, e: Event) {
    e.Consuming? && e.hasState && w.open && e.cfg.limit > 0 &&
    var end := PollLoop(e.cfg.limit, [], w.backlog, e.env.polls, 0, []);
    !end.exit.Broken? && |end.got| < e.cfg.limit && (end.exit.Expired? || e.env.lateDone) && !e.env.parentDone
  }

  predicate EndedByFetchError(w: World, e: Event) {
    CallOf(w, e).outcome.Failed? && CallOf(w, e).outcome.failure.FetchFailed?
  }

  function One(b: bool): nat {
    if b then 1 else 0
  }

  /** 1 for each call that maxWait ended. */
  function TimeoutsIn(es: seq<Event>, ws: seq<World>): seq<nat>
    requires |es| < |ws|
  {
    seq(|es|, i requires 0 <= i < |es| => One(EndedByMaxWait(ws[i], es[i])))
  }

  /** 1 for each call that a fetch error ended. */
  function ErrorsIn(es: seq<Event>, ws: seq<World>): seq<nat>
    requires |es| < |ws|
  {
    seq(|es|, i requires 0 <= i < |es| => One(EndedByFetchError(ws[i], es[i])))
  }

  // ----- no record is lost, repeated or reordered

  lemma CallTakesPrefix(hasState: bool, open: bool, backlog: seq<Record>, cfg: ConsumeConfig, env: CallEnv)
    ensures var c := ConsumeSpec(hasState, open, backlog, cfg, env);
            c.taken + c.rest == backlog
            && (c.outcome.Returned? ==> TellsAll(c.outcome.messages, c.taken, cfg.nano))
  {
    SpecTells(hasState, open, backlog, cfg, env);
    if cfg.limit > 0 {
      LoopTakesPrefix(cfg.limit, [], backlog, env.polls, 0, []);
    }
  }

  /** One call polls a prefix of the stream and leaves the rest; if it returns, it
      returns the records it polled, each told field by field, and if it fails, nothing. */
  lemma CallConserves(w: World, e: Event)
    requires Legal(w, e)
    ensures CallOf(w, e).taken + Next(w, e).backlog == w.backlog
    ensures e.Consuming? ==>
              var c := CallOf(w, e);
              if c.outcome.Returned? then TellsAll(Given(c), c.taken, e.cfg.nano) else Given(c) == []
    ensures !e.Consuming? ==> CallOf(w, e).taken == [] && Given(CallOf(w, e)) == []
  {
    if e.Consuming? {
      CallTakesPrefix(e.hasState, w.open, w.backlog, e.cfg, e.env);
    }
  }

  /** Pieces cut off one after the other make up the whole with what is left. */
  lemma {:induction false} PiecesMakeWhole(pieces: seq<seq<Record>>, lefts: seq<seq<Record>>)
    requires |lefts| == |pieces| + 1
    requires forall i | 0 <= i < |pieces| :: pieces[i] + lefts[i + 1] == lefts[i]
    ensures Flat(pieces) + lefts[|pieces|] == lefts[0]
  {
    if pieces != [] {
      var n := |pieces| - 1;
      PiecesMakeWhole(pieces[..n], lefts[..n + 1]);
      assert Flat(pieces[..n]) + (pieces[n] + lefts[n + 1]) == Flat(pieces[..n]) + pieces[n] + lefts[n + 1];
    }
  }

  /** Over any run, the records polled followed by those left are the stream: each
      is polled once, in order. */
  lemma StreamConserved(es: seq<Event>, ws: seq<World>)
    requires IsRun(es, ws)
    ensures Flat(PolledIn(es, ws)) + ws[|es|].backlog == ws[0].backlog
  {
    var lefts := seq(|ws|, i requires 0 <= i < |ws| => ws[i].backlog);
    forall i | 0 <= i < |es|
      ensures PolledIn(es, ws)[i] + lefts[i + 1] == lefts[i]
    {
      CallConserves(ws[i], es[i]);
    }
    PiecesMakeWhole(PolledIn(es, ws), lefts);
  }

  /** The i-th message tells the i-th record, however its time is shown. */
  ghost predicate Decodes(ms: seq<Message>, rs: seq<Record>) {
    |ms| == |rs| && forall i | 0 <= i < |ms| :: Tells(ms[i], rs[i], ms[i].nano)
  }

  lemma {:induction false} DecodesFlat(given: seq<seq<Message>>, polled: seq<seq<Record>>)
    requires |given| == |polled| && forall i | 0 <= i < |given| :: Decodes(given[i], polled[i])
    ensures Decodes(Flat(given), Flat(polled))
  {
    if given != [] {
      DecodesFlat(given[..|given| - 1], polled[..|polled| - 1]);
    }
  }

  /** If no call of a run fails, the batches returned, put together, are the polled stream. */
  lemma ReturnedIsPolled(es: seq<Event>, ws: seq<World>)
    requires IsRun(es, ws)
    requires forall i | 0 <= i < |es| :: CallOf(ws[i], es[i]).outcome.Returned?
    ensures Decodes(Flat(GivenIn(es, ws)), Flat(PolledIn(es, ws)))
  {
    forall i | 0 <= i < |es|
      ensures Decodes(GivenIn(es, ws)[i], PolledIn(es, ws)[i])
    {
      CallConserves(ws[i], es[i]);
    }
    DecodesFlat(GivenIn(es, ws), PolledIn(es, ws));
  }

  // ----- samples agree with what scripts receive

  function CountMessages(ms: seq<Message>, t: GoString): nat {
    if ms == [] then 0
    else CountMessages(ms[..|ms| - 1], t) + (if ms[|ms| - 1].topic == t then 1 else 0)
  }

  function BytesOfMessages(ms: seq<Message>, t: GoString): nat {
    if ms == [] then 0
    else
      var m := ms[|ms| - 1];
      BytesOfMessages(ms[..|ms| - 1], t) + (if m.topic == t then |m.key| + |m.value| else 0)
  }

  function MessageLags(ms: seq<Message>): seq<Trend> {
    seq(|ms|, i requires 0 <= i < |ms| =>
      var m := ms[i];
      Trend(m.topic, if m.offset + 1 < m.highWaterMark then m.highWaterMark - m.offset - 1 else 0))
  }

  function MessageOffsets(ms: seq<Message>): seq<Trend> {
    seq(|ms|, i requires 0 <= i < |ms| => Trend(ms[i].topic, ms[i].offset))
  }

  lemma {:induction false} MessagesConcat(a: seq<Message>, b: seq<Message>, t: GoString)
    ensures CountMessages(a + b, t) == CountMessages(a, t) + CountMessages(b, t)
    ensures BytesOfMessages(a + b, t) == BytesOfMessages(a, t) + BytesOfMessages(b, t)
  {
    if b == [] {
      assert a + b == a;
    } else {
      MessagesConcat(a, b[..|b| - 1], t);
      assert (a + b)[..|a + b| - 1] == a + b[..|b| - 1];
    }
  }

  lemma {:induction false} TallyCounts(rs: seq<Record>, nano: bool, t: GoString)
    ensures TopicCounts(rs).Keys == TopicBytes(rs).Keys
    ensures Get(TopicCounts(rs), t) == CountMessages(DecodeAll(rs, nano), t)
    ensures Get(TopicBytes(rs), t) == BytesOfMessages(DecodeAll(rs, nano), t)
  {
    if rs != [] {
      TallyCounts(rs[..|rs| - 1], nano, t);
      assert DecodeAll(rs, nano)[..|rs| - 1] == DecodeAll(rs[..|rs| - 1], nano);
    }
  }

  /** The message counters out adds up to, against the messages. */
  ghost predicate CountsReported(out: Samples, ms: seq<Message>, t: GoString) {
    && Sum(out, ReaderMessageCount, Some(t)) == CountMessages(ms, t)
    && Sum(out, ReaderMessageBytes, Some(t)) == BytesOfMessages(ms, t)
  }

  /** The lag and offset values out holds, against the messages. */
  ghost predicate TrendsReported(out: Samples, ms: seq<Message>) {
    && Emitted(out, ReaderLag) == AsTagged(ReaderLag, MessageLags(ms))
    && Emitted(out, ReaderOffset) == AsTagged(ReaderOffset, MessageOffsets(ms))
  }

  ghost predicate FailuresReported(out: Samples, timeouts: int, errors: int) {
    && Sum(out, ReaderTimeoutsCount, None) == timeouts
    && Sum(out, ReaderErrorCount, None) == errors
  }

  lemma TallyMatches(rs: seq<Record>, f: Flags, nano: bool, t: GoString)
    ensures var x, ms := TallyOf(rs, f), if f.withMessages then DecodeAll(rs, nano) else [];
            x.counts.Keys == x.bytes.Keys
            && Get(x.counts, t) == CountMessages(ms, t) && Get(x.bytes, t) == BytesOfMessages(ms, t)
            && x.lags == MessageLags(ms) && x.offsets == MessageOffsets(ms)
  {
    TallyCounts(rs, nano, t);
  }

  /** Flushed with messages exactly when messages are returned. */
  lemma FlagsMatch(w: World, e: Event)
    requires e.Consuming? && CallOf(w, e).flush.Some?
    ensures var c, f := CallOf(w, e), CallOf(w, e).flush.value;
            Given(c) == (if f.withMessages then DecodeAll(c.taken, e.cfg.nano) else [])
            && (f.timedOut <==> EndedByMaxWait(w, e)) && (f.fetchErr <==> EndedByFetchError(w, e))
  {
  }

  lemma SiteReports(w: World, e: Event, t: GoString)
    requires Legal(w, e)
    ensures CountsReported(Site(w, e), Given(CallOf(w, e)), t)
    ensures TrendsReported(Site(w, e), Given(CallOf(w, e)))
    ensures FailuresReported(Site(w, e), One(EndedByMaxWait(w, e)), One(EndedByFetchError(w, e)))
  {
    if e.Consuming? && CallOf(w, e).flush.Some? {
      FlagsMatch(w, e);
      TallyMatches(CallOf(w, e).taken, CallOf(w, e).flush.value, e.cfg.nano, t);
      ConsumeSiteReads(CallTally(w, e), e.o.site, t);
    }
  }

  /** The drained samples that follow add nothing to these metrics. */
  lemma FlushCounts(site: Samples, s: State, drain: seq<GoString>, ms: seq<Message>, t: GoString)
    requires CountsReported(site, ms, t)
    ensures CountsReported(site + DrainOutput(s, drain), ms, t)
  {
    SiteOnly(site, s, drain, ReaderMessageCount, Some(t));
    SiteOnly(site, s, drain, ReaderMessageBytes, Some(t));
  }

  lemma FlushTrends(site: Samples, s: State, drain: seq<GoString>, ms: seq<Message>)
    requires TrendsReported(site, ms)
    ensures TrendsReported(site + DrainOutput(s, drain), ms)
  {
    SiteOnly(site, s, drain, ReaderLag, None);
    SiteOnly(site, s, drain, ReaderOffset, None);
  }

  lemma FlushFailures(site: Samples, s: State, drain: seq<GoString>, timeouts: int, errors: int)
    requires FailuresReported(site, timeouts, errors)
    ensures FailuresReported(site + DrainOutput(s, drain), timeouts, errors)
  {
    SiteOnly(site, s, drain, ReaderTimeoutsCount, None);
    SiteOnly(site, s, drain, ReaderErrorCount, None);
  }

  /** One event's samples, hooks included, report that event. */
  lemma CallReports(w: World, e: Event, t: GoString)
    requires Legal(w, e)
    ensures CountsReported(Built(w, e), Given(CallOf(w, e)), t)
    ensures TrendsReported(Built(w, e), Given(CallOf(w, e)))
    ensures FailuresReported(Built(w, e), One(EndedByMaxWait(w, e)), One(EndedByFetchError(w, e)))
  {
    SiteReports(w, e, t);
    if Drains(w, e) {
      FlushCounts(Site(w, e), Fired(w, e), DrainOrder(e), Given(CallOf(w, e)), t);
      FlushTrends(Site(w, e), Fired(w, e), DrainOrder(e), Given(CallOf(w, e)));
      FlushFailures(Site(w, e), Fired(w, e), DrainOrder(e), One(EndedByMaxWait(w, e)), One(EndedByFetchError(w, e)));
    }
  }

  lemma CountsAdd(a: Samples, ms: seq<Message>, b: Samples, more: seq<Message>, t: GoString)
    requires CountsReported(a, ms, t) && CountsReported(b, more, t)
    ensures CountsReported(a + b, ms + more, t)
  {
    MessagesConcat(ms, more, t);
    SumConcat(a, b, ReaderMessageCount, Some(t));
    SumConcat(a, b, ReaderMessageBytes, Some(t));
  }

  lemma TrendsAdd(a: Samples, ms: seq<Message>, b: Samples, more: seq<Message>)
    requires TrendsReported(a, ms) && TrendsReported(b, more)
    ensures TrendsReported(a + b, ms + more)
  {
    EmittedConcat(a, b, ReaderLag);
    EmittedConcat(a, b, ReaderOffset);
    assert MessageLags(ms + more) == MessageLags(ms) + MessageLags(more);
    assert MessageOffsets(ms + more) == MessageOffsets(ms) + MessageOffsets(more);
    CR.AsTaggedConcat(ReaderLag, MessageLags(ms), MessageLags(more));
    CR.AsTaggedConcat(ReaderOffset, MessageOffsets(ms), MessageOffsets(more));
  }

  lemma {:induction false} CountsFlat(outs: seq<Samples>, given: seq<seq<Message>>, t: GoString)
    requires |outs| == |given| && forall i | 0 <= i < |outs| :: CountsReported(outs[i], given[i], t)
    ensures CountsReported(Flat(outs), Flat(given), t)
  {
    if outs != [] {
      var n := |outs| - 1;
      CountsFlat(outs[..n], given[..n], t);
      CountsAdd(Flat(outs[..n]), Flat(given[..n]), outs[n], given[n], t);
    }
  }

  lemma {:induction false} TrendsFlat(outs: seq<Samples>, given: seq<seq<Message>>)
    requires |outs| == |given| && forall i | 0 <= i < |outs| :: TrendsReported(outs[i], given[i])
    ensures TrendsReported(Flat(outs), Flat(given))
  {
    if outs != [] {
      var n := |outs| - 1;
      TrendsFlat(outs[..n], given[..n]);
      TrendsAdd(Flat(outs[..n]), Flat(given[..n]), outs[n], given[n]);
    }
  }

  lemma {:induction false} FailuresFlat(outs: seq<Samples>, timeouts: seq<nat>, errors: seq<nat>)
    requires |outs| == |timeouts| == |errors|
    requires forall i | 0 <= i < |outs| :: FailuresReported(outs[i], timeouts[i], errors[i])
    ensures FailuresReported(Flat(outs), Total(timeouts), Total(errors))
  {
    if outs != [] {
      var n := |outs| - 1;
      FailuresFlat(outs[..n], timeouts[..n], errors[..n]);
      SumConcat(Flat(outs[..n]), outs[n], ReaderTimeoutsCount, None);
      SumConcat(Flat(outs[..n]), outs[n], ReaderErrorCount, None);
    }
  }

  /** Over any run, on every topic, the message and byte counters add up to the
      messages handed to the script and their bytes. */
  lemma CountsAgree(es: seq<Event>, ws: seq<World>, t: GoString)
    requires IsRun(es, ws)
    ensures CountsReported(Flat(BuiltIn(es, ws)), Flat(GivenIn(es, ws)), t)
  {
    forall i | 0 <= i < |es|
      ensures CountsReported(BuiltIn(es, ws)[i], GivenIn(es, ws)[i], t)
    {
      CallReports(ws[i], es[i], t);
    }
    CountsFlat(BuiltIn(es, ws), GivenIn(es, ws), t);
  }

  /** Over any run, the lag and offset trends are those of the messages handed to
      the script, in order. */
  lemma TrendsAgree(es: seq<Event>, ws: seq<World>)
    requires IsRun(es, ws)
    ensures TrendsReported(Flat(BuiltIn(es, ws)), Flat(GivenIn(es, ws)))
  {
    forall i | 0 <= i < |es|
      ensures TrendsReported(BuiltIn(es, ws)[i], GivenIn(es, ws)[i])
    {
      CallReports(ws[i], es[i], []);
    }
    TrendsFlat(BuiltIn(es, ws), GivenIn(es, ws));
  }

  /** Over any run, timeouts count the calls maxWait ended and errors the calls a
      fetch error ended; other calls, cancelled ones among them, count in neither. */
  lemma FailuresAgree(es: seq<Event>, ws: seq<World>)
    requires IsRun(es, ws)
    ensures FailuresReported(Flat(BuiltIn(es, ws)), Total(TimeoutsIn(es, ws)), Total(ErrorsIn(es, ws)))
  {
    forall i | 0 <= i < |es|
      ensures FailuresReported(BuiltIn(es, ws)[i], TimeoutsIn(es, ws)[i], ErrorsIn(es, ws)[i])
    {
      CallReports(ws[i], es[i], []);
    }
    FailuresFlat(BuiltIn(es, ws), TimeoutsIn(es, ws), ErrorsIn(es, ws));
  }
}
