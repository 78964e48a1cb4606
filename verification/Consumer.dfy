/** Reader.Consume and Reader.Close (pkg/kafka/consumer.go:239-365). */
module Consumer {
  import opened Prelude
  import opened Metrics
  import opened Collector
  import opened CallSite

  datatype Header = Header(key: GoString, value: Bytes)

  /** A fetched record, with the high watermark of the partition fetch it came in. */
  datatype Record = Record(
    topic: GoString, partition: int, offset: int, highWatermark: int,
    key: Bytes, value: Bytes, headers: seq<Header>, timestamp: int)

  /** The time keeps its format, RFC 3339 with or without nanoseconds, unrendered. */
  datatype Message = Message(
    topic: GoString, partition: int, offset: int, highWaterMark: int,
    key: Bytes, value: Bytes, headers: map<GoString, Bytes>, timestamp: int, nano: bool)

  /** A partition error: the expected end of a wait, or a real failure. */
  datatype FetchError = WaitEnded | Real(topic: GoString, message: string)

  /** One PollRecords call: how many records are there at most, the hooks that fired
      up to its return, whether the call's context is done then, and its errors. */
  datatype Poll = Poll(avail: nat, hooks: seq<Hook>, ctxDone: bool, errs: seq<FetchError>)

  /** What one Consume call meets. Past the listed polls the deadline has passed.
      lateDone says the context was done by the check after the loop, parentDone
      that the VU's own context was done when it was looked at last. */
  datatype CallEnv = CallEnv(polls: seq<Poll>, lateDone: bool, parentDone: bool)

  datatype ConsumeConfig = ConsumeConfig(limit: int, nano: bool, expectTimeout: bool)

  datatype Failure = NotInVU | Closed | FetchFailed(topic: GoString, message: string) | Canceled | TimedOut(got: nat)

  datatype Outcome = Returned(messages: seq<Message>) | Failed(failure: Failure)

  function Lag(highWatermark: int, offset: int): int {
    if highWatermark - offset - 1 > 0 then highWatermark - offset - 1 else 0
  }

  /** The header map; of two headers with one key the later wins. */
  function DecodeHeaders(hs: seq<Header>): map<GoString, Bytes> {
    if hs == [] then map[]
    else DecodeHeaders(hs[..|hs| - 1])[hs[|hs| - 1].key := hs[|hs| - 1].value]
  }

  function Decode(r: Record, nano: bool): Message {
    Message(r.topic, r.partition, r.offset, r.highWatermark, r.key, r.value, DecodeHeaders(r.headers), r.timestamp, nano)
  }

  function DecodeAll(rs: seq<Record>, nano: bool): seq<Message> {
    seq(|rs|, i requires 0 <= i < |rs| => Decode(rs[i], nano))
  }

  // ----- the poll loop

  datatype Exit = Full | Expired | Broken(topic: GoString, message: string) | WaitErrors

  /** How a loop ended: the records polled, those left, the polls made, the hooks
      that fired, and why. */
  datatype End = End(got: seq<Record>, rest: seq<Record>, made: nat, hooks: seq<Hook>, exit: Exit)

  function FirstReal(errs: seq<FetchError>): Option<FetchError> {
    if errs == [] then None
    else if errs[0].Real? then Some(errs[0])
    else FirstReal(errs[1..])
  }

  function PollAt(polls: seq<Poll>, n: nat): Poll {
    if n < |polls| then polls[n] else Poll(0, [], true, [])
  }

  function Min(a: nat, b: nat): nat {
    if a < b then a else b
  }

  /** The loop from its n-th poll on. */
  function PollLoop(limit: nat, got: seq<Record>, backlog: seq<Record>, polls: seq<Poll>, n: nat, hooks: seq<Hook>): End
    requires n <= |polls|
    decreases |polls| - n
  {
    if |got| >= limit then End(got, backlog, n, hooks, Full)
    else
      var p := PollAt(polls, n);
      var k := Min(Min(p.avail, |backlog|), limit - |got|);
      var got', rest, hooks' := got + backlog[..k], backlog[k..], hooks + p.hooks;
      if p.ctxDone then End(got', rest, n + 1, hooks', Expired)
      else if FirstReal(p.errs).Some? then
        FirstRealIn(p.errs);
        End(got', rest, n + 1, hooks', Broken(FirstReal(p.errs).value.topic, FirstReal(p.errs).value.message))
      else if p.errs != [] then End(got', rest, n + 1, hooks', WaitErrors)
      else PollLoop(limit, got', rest, polls, n + 1, hooks')
  }

  /** errs[i] is a real error, and the first. */
  predicate FirstRealAt(errs: seq<FetchError>, i: nat) {
    i < |errs| && errs[i].Real? && forall j | 0 <= j < i :: !errs[j].Real?
  }

  lemma {:induction false} FirstRealIn(errs: seq<FetchError>)
    ensures FirstReal(errs).None? ==> forall i | 0 <= i < |errs| :: !errs[i].Real?
    ensures FirstReal(errs).Some? ==> FirstReal(errs).value.Real?
    ensures FirstReal(errs).Some? ==> exists i: nat :: FirstRealAt(errs, i) && errs[i] == FirstReal(errs).value
  {
    if errs != [] {
      if errs[0].Real? {
        assert FirstRealAt(errs, 0);
      } else {
        FirstRealIn(errs[1..]);
        assert forall j | 1 <= j < |errs| :: errs[j] == errs[1..][j - 1];
        if FirstReal(errs).Some? {
          var i: nat :| FirstRealAt(errs[1..], i) && errs[1..][i] == FirstReal(errs).value;
          assert FirstRealAt(errs, i + 1);
        }
      }
    }
  }

  // ----- what a message tells of its record

  /** h[i] is the last header of key k. */
  predicate LastHeader(hs: seq<Header>, k: GoString, i: nat) {
    i < |hs| && hs[i].key == k && forall j | i < j < |hs| :: hs[j].key != k
  }

  /** m has exactly the keys of hs, each with the value of the last header of that key. */
  ghost predicate HeadersTold(m: map<GoString, Bytes>, hs: seq<Header>) {
    && (forall i | 0 <= i < |hs| :: hs[i].key in m)
    && (forall k | k in m :: exists i: nat :: LastHeader(hs, k, i) && m[k] == hs[i].value)
  }

  /** m is the record r, field by field. */
  ghost predicate Tells(m: Message, r: Record, nano: bool) {
    && m.topic == r.topic && m.partition == r.partition && m.offset == r.offset
    && m.highWaterMark == r.highWatermark && m.key == r.key && m.value == r.value
    && m.timestamp == r.timestamp && m.nano == nano
    && HeadersTold(m.headers, r.headers)
  }

  ghost predicate TellsAll(ms: seq<Message>, rs: seq<Record>, nano: bool) {
    |ms| == |rs| && forall i | 0 <= i < |ms| :: Tells(ms[i], rs[i], nano)
  }

  lemma {:induction false} HeadersExact(hs: seq<Header>)
    ensures HeadersTold(DecodeHeaders(hs), hs)
  {
    if hs != [] {
      var init, last := hs[..|hs| - 1], |hs| - 1;
      HeadersExact(init);
      var before, m := DecodeHeaders(init), DecodeHeaders(hs);
      assert forall i | 0 <= i < |init| :: init[i] == hs[i];
      forall k | k in m
        ensures exists i: nat :: LastHeader(hs, k, i) && m[k] == hs[i].value
      {
        if k == hs[last].key {
          assert LastHeader(hs, k, last);
        } else {
          var i: nat :| LastHeader(init, k, i) && before[k] == init[i].value;
          assert LastHeader(hs, k, i);
        }
      }
    }
  }

  lemma DecodeTells(r: Record, nano: bool)
    ensures Tells(Decode(r, nano), r, nano)
  {
    HeadersExact(r.headers);
  }

  lemma DecodeAllTells(rs: seq<Record>, nano: bool)
    ensures TellsAll(DecodeAll(rs, nano), rs, nano)
  {
    forall i | 0 <= i < |rs|
      ensures Tells(DecodeAll(rs, nano)[i], rs[i], nano)
    {
      DecodeTells(rs[i], nano);
    }
  }

  // ----- one call

  /** What a call flushes, if it flushes. */
  datatype Flags = Flags(withMessages: bool, fetchErr: bool, timedOut: bool)

  /** One call: the records it took, those left, the hooks, the outcome, and its flush. */
  datatype Call = Call(taken: seq<Record>, rest: seq<Record>, hooks: seq<Hook>, outcome: Outcome, flush: Option<Flags>)

  function Judge(end: End, cfg: ConsumeConfig, env: CallEnv): (Outcome, Flags) {
    if end.exit.Broken? then
      (Failed(FetchFailed(end.exit.topic, end.exit.message)), Flags(false, true, false))
    else if |end.got| < cfg.limit && (end.exit.Expired? || env.lateDone) then
      if env.parentDone then (Failed(Canceled), Flags(false, false, false))
      else if cfg.expectTimeout then (Returned(DecodeAll(end.got, cfg.nano)), Flags(true, false, true))
      else (Failed(TimedOut(|end.got|)), Flags(false, false, true))
    else (Returned(DecodeAll(end.got, cfg.nano)), Flags(true, false, false))
  }

  /** Consume on a reader that is open or not, with VU state or not. */
  function ConsumeSpec(hasState: bool, open: bool, backlog: seq<Record>, cfg: ConsumeConfig, env: CallEnv): Call {
    if !hasState then Call([], backlog, [], Failed(NotInVU), None)
    else if !open then Call([], backlog, [], Failed(Closed), None)
    else if cfg.limit <= 0 then Call([], backlog, [], Returned([]), None)
    else
      var end := PollLoop(cfg.limit, [], backlog, env.polls, 0, []);
      var j := Judge(end, cfg, env);
      Call(end.got, end.rest, end.hooks, j.0, Some(j.1))
  }

  /** A call that returns tells the records it took, one message each. */
  lemma SpecTells(hasState: bool, open: bool, backlog: seq<Record>, cfg: ConsumeConfig, env: CallEnv)
    ensures var c := ConsumeSpec(hasState, open, backlog, cfg, env);
            c.outcome.Returned? ==> TellsAll(c.outcome.messages, c.taken, cfg.nano)
  {
    DecodeAllTells(ConsumeSpec(hasState, open, backlog, cfg, env).taken, cfg.nano);
  }

  function TopicCounts(rs: seq<Record>): (m: map<GoString, int>) {
    if rs == [] then map[]
    else
      var m, t := TopicCounts(rs[..|rs| - 1]), rs[|rs| - 1].topic;
      m[t := Get(m, t) + 1]
  }

  function Size(r: Record): nat {
    |r.key| + |r.value|
  }

  function TopicBytes(rs: seq<Record>): (m: map<GoString, int>) {
    if rs == [] then map[]
    else
      var m, r := TopicBytes(rs[..|rs| - 1]), rs[|rs| - 1];
      m[r.topic := Get(m, r.topic) + Size(r)]
  }

  function Lags(rs: seq<Record>): seq<Trend> {
    seq(|rs|, i requires 0 <= i < |rs| => Trend(rs[i].topic, Lag(rs[i].highWatermark, rs[i].offset)))
  }

  function Offsets(rs: seq<Record>): seq<Trend> {
    seq(|rs|, i requires 0 <= i < |rs| => Trend(rs[i].topic, rs[i].offset))
  }

  /** The tally a call reports for the records it took. */
  function TallyOf(rs: seq<Record>, f: Flags): Tally {
    if f.withMessages then Tally(TopicCounts(rs), TopicBytes(rs), Lags(rs), Offsets(rs), f.fetchErr, f.timedOut)
    else Tally(map[], map[], [], [], f.fetchErr, f.timedOut)
  }

  // ----- the client and the reader

  /** The franz-go client: the records it will hand out, in the order it will. */
  class Client {
    var backlog: seq<Record>

    constructor (backlog: seq<Record>)
      ensures this.backlog == backlog
    {
      this.backlog := backlog;
    }

    /** PollRecords hands out the next records, as many as there are at the time but
        never more than it was asked for. */
    method PollRecords(max: nat, p: Poll) returns (rs: seq<Record>)
      modifies this
      ensures rs + backlog == old(backlog)
      ensures |rs| <= max && |rs| == Min(Min(p.avail, |old(backlog)|), max)
    {
      var k := Min(Min(p.avail, |backlog|), max);
      rs := backlog[..k];
      backlog := backlog[k..];
    }
  }

  /** The messages and tallies gathered for the records polled so far. */
  class Batch {
    var messages: seq<Message>
    var msgCount: map<GoString, int>
    var msgBytes: map<GoString, int>
    var lags: seq<Trend>
    var offsets: seq<Trend>

    constructor ()
      ensures Holds([], false) && Holds([], true)
    {
      messages, msgCount, msgBytes, lags, offsets := [], map[], map[], [], [];
    }

    ghost predicate Holds(rs: seq<Record>, nano: bool)
      reads this
    {
      && messages == DecodeAll(rs, nano)
      && msgCount == TopicCounts(rs) && msgBytes == TopicBytes(rs)
      && lags == Lags(rs) && offsets == Offsets(rs)
    }

    /** The body of the loop over one poll's records. */
    method Add(r: Record, nano: bool, ghost rs: seq<Record>)
      requires Holds(rs, nano)
      modifies this
      ensures Holds(rs + [r], nano)
      ensures Tells(messages[|rs|], r, nano)
    {
      assert (rs + [r])[..|rs|] == rs;
      DecodeTells(r, nano);
      messages := messages + [Decode(r, nano)];
      msgCount := msgCount[r.topic := Get(msgCount, r.topic) + 1];
      msgBytes := msgBytes[r.topic := Get(msgBytes, r.topic) + (|r.key| + |r.value|)];
      lags := lags + [Trend(r.topic, Lag(r.highWatermark, r.offset))];
      offsets := offsets + [Trend(r.topic, r.offset)];
      assert messages[|rs|] == Decode(r, nano);
    }

    method AddAll(more: seq<Record>, nano: bool, ghost rs: seq<Record>)
      requires Holds(rs, nano)
      modifies this
      ensures Holds(rs + more, nano)
    {
      assert rs + [] == rs;
      for i := 0 to |more|
        invariant Holds(rs + more[..i], nano)
      {
        Add(more[i], nano, rs + more[..i]);
        assert rs + more[..i] + [more[i]] == rs + more[..i + 1];
      }
      assert more[..|more|] == more;
    }
  }

  class Reader {
    var client: Client?
    const collector: MetricsCollector

    constructor (client: Client, collector: MetricsCollector)
      ensures this.client == client && this.collector == collector
    {
      this.client, this.collector := client, collector;
    }

    function Backlog(): seq<Record>
      reads this, client
    {
      if client == null then [] else client.backlog
    }

    /** What a call with this spec hands back, flushes and leaves behind. */
    twostate predicate Carries(spec: Call, outcome: Outcome, built: Samples, o: Orders)
      reads this, client, collector
    {
      && client == old(client) && (client != null ==> client.backlog == spec.rest)
      && outcome == spec.outcome
      && match spec.flush
         case None => built == [] && collector.View() == old(collector.View())
         case Some(f) =>
           var x := TallyOf(spec.taken, f);
           IsOrder(o.site, x.counts.Keys)
           && Flushes(AfterHooks(old(collector.View()), spec.hooks), collector.View(), ConsumeSite(x, o.site), built, o)
    }

    method Consume(hasState: bool, cfg: ConsumeConfig, env: CallEnv)
      returns (outcome: Outcome, built: Samples, o: Orders)
      modifies client, collector
      ensures Carries(ConsumeSpec(hasState, client != null, old(Backlog()), cfg, env), outcome, built, o)
      ensures outcome.Returned? ==>
                TellsAll(outcome.messages, ConsumeSpec(hasState, client != null, old(Backlog()), cfg, env).taken, cfg.nano)
    {
      SpecTells(hasState, client != null, Backlog(), cfg, env);
      built, o := [], Orders([], []);
      if !hasState {
        return Failed(NotInVU), built, o;
      }
      if client == null {
        return Failed(Closed), built, o;
      }
      if cfg.limit <= 0 {
        return Returned([]), built, o;
      }
      var batch := new Batch();
      var end := Gather(cfg, env, batch);
      outcome, built, o := Conclude(cfg, env, batch, end);
    }

    /** Consume after its loop. */
    method Conclude(cfg: ConsumeConfig, env: CallEnv, batch: Batch, end: End)
      returns (outcome: Outcome, built: Samples, o: Orders)
      requires batch.Holds(end.got, cfg.nano)
      modifies collector
      ensures outcome == Judge(end, cfg, env).0
      ensures var x := TallyOf(end.got, Judge(end, cfg, env).1);
              IsOrder(o.site, x.counts.Keys)
              && Flushes(old(collector.View()), collector.View(), ConsumeSite(x, o.site), built, o)
    {
      if end.exit.Broken? {
        built, o := FlushBatch(batch, false, true, false, end.got, cfg.nano);
        return Failed(FetchFailed(end.exit.topic, end.exit.message)), built, o;
      }
      var ctxDone := end.exit.Expired? || env.lateDone;
      if |batch.messages| < cfg.limit && ctxDone {
        if env.parentDone {
          built, o := FlushBatch(batch, false, false, false, end.got, cfg.nano);
          return Failed(Canceled), built, o;
        }
        if cfg.expectTimeout {
          built, o := FlushBatch(batch, true, false, true, end.got, cfg.nano);
          return Returned(batch.messages), built, o;
        }
        built, o := FlushBatch(batch, false, false, true, end.got, cfg.nano);
        return Failed(TimedOut(|batch.messages|)), built, o;
      }
      built, o := FlushBatch(batch, true, false, false, end.got, cfg.nano);
      return Returned(batch.messages), built, o;
    }

    /** Consume's own flush: the tallies of the batch go out only withMessages. */
    method FlushBatch(
      batch: Batch, withMessages: bool, fetchErr: bool, timedOut: bool, ghost rs: seq<Record>, ghost nano: bool)
      returns (built: Samples, o: Orders)
      requires batch.Holds(rs, nano)
      modifies collector
      ensures var x := TallyOf(rs, Flags(withMessages, fetchErr, timedOut));
              IsOrder(o.site, x.counts.Keys)
              && Flushes(old(collector.View()), collector.View(), ConsumeSite(x, o.site), built, o)
    {
      var x := Tally(map[], map[], [], [], fetchErr, timedOut);
      if withMessages {
        x := x.(counts := batch.msgCount, bytes := batch.msgBytes, lags := batch.lags, offsets := batch.offsets);
      }
      built, o := FlushConsume(collector, true, x);
    }

    /** The poll loop: batch ends up holding every record polled. */
    method Gather(cfg: ConsumeConfig, env: CallEnv, batch: Batch) returns (end: End)
      requires client != null && cfg.limit > 0
      requires batch.Holds([], cfg.nano)
      modifies client, collector, batch
      ensures end == PollLoop(cfg.limit, [], old(client.backlog), env.polls, 0, [])
      ensures client.backlog == end.rest && batch.Holds(end.got, cfg.nano)
      ensures collector.View() == AfterHooks(old(collector.View()), end.hooks)
    {
      var got, hooks, n := [], [], 0;
      while |got| < cfg.limit
        invariant n <= |env.polls|
        invariant batch.Holds(got, cfg.nano)
        invariant collector.View() == AfterHooks(old(collector.View()), hooks)
        invariant PollLoop(cfg.limit, got, client.backlog, env.polls, n, hooks)
                  == PollLoop(cfg.limit, [], old(client.backlog), env.polls, 0, [])
        decreases |env.polls| - n
      {
        var p := PollAt(env.polls, n);
        ghost var stream := client.backlog;
        var rs := client.PollRecords(cfg.limit - |got|, p);
        assert rs == stream[..|rs|] && client.backlog == stream[|rs|..];
        FireHooks(collector, p.hooks);
        AfterHooksConcat(old(collector.View()), hooks, p.hooks);
        batch.AddAll(rs, cfg.nano, got);
        got, hooks, n := got + rs, hooks + p.hooks, n + 1;
        if p.ctxDone {
          return End(got, client.backlog, n, hooks, Expired);
        }
        if p.errs != [] {
          FirstRealIn(p.errs);
          for i := 0 to |p.errs|
            invariant FirstReal(p.errs) == FirstReal(p.errs[i..])
          {
            if p.errs[i].Real? {
              return End(got, client.backlog, n, hooks, Broken(p.errs[i].topic, p.errs[i].message));
            }
          }
          return End(got, client.backlog, n, hooks, WaitErrors);
        }
      }
      return End(got, client.backlog, n, hooks, Full);
    }

    /** Close: a last drain, once; hooks are those that fired since the last call. */
    method Close(hasState: bool, hooks: seq<Hook>) returns (built: Samples, drain: seq<GoString>)
      modifies this, collector
      ensures client == null
      ensures old(client) == null ==> built == [] && collector.View() == old(collector.View())
      ensures old(client) != null && hasState ==>
                var s := AfterHooks(old(collector.View()), hooks);
                IsOrder(drain, s.batchCount.Keys)
                && built == DrainOutput(s, drain) && collector.View() == Drained(s, drain)
      ensures old(client) != null && !hasState ==>
                built == [] && collector.View() == AfterHooks(old(collector.View()), hooks)
    {
      built, drain := [], [];
      if client == null {
        return;
      }
      FireHooks(collector, hooks);
      built, drain := collector.Flush(hasState, []);
      client := null;
    }
  }
}
