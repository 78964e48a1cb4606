/**
 A collector under calls that flush: hooks fire in each call, and a call may then
 hand over samples of its own followed by a drain (pkg/kafka/metrics.go:206-323).
 */
module FlushRuns {
  import opened Prelude
  import opened Metrics
  import opened Collector
  import CR = CollectorRuns
  import opened CallSite

  /** What a call that flushes adds: its own samples and the drain's map order. */
  datatype Flush = Flush(site: Samples, drain: seq<GoString>)

  /** One call as the collector sees it: the hooks that fire, then the flush, if any. */
  datatype Seen = Seen(hooks: seq<Hook>, flush: Option<Flush>)

  /** A call's own samples are of its own metrics. */
  predicate OwnMetrics(site: Samples) {
    forall i | 0 <= i < |site| :: !IsHookMetric(site[i].metric)
  }

  predicate Legal(s: State, c: Seen) {
    c.flush.Some? ==>
      OwnMetrics(c.flush.value.site) && IsOrder(c.flush.value.drain, AfterHooks(s, c.hooks).batchCount.Keys)
  }

  function BuiltBy(s: State, c: Seen): Samples {
    if c.flush.Some? then c.flush.value.site + DrainOutput(AfterHooks(s, c.hooks), c.flush.value.drain) else []
  }

  function Next(s: State, c: Seen): State
    requires Legal(s, c)
  {
    var fired := AfterHooks(s, c.hooks);
    if c.flush.Some? then Drained(fired, c.flush.value.drain) else fired
  }

  predicate IsRun(role: Role, cs: seq<Seen>, ss: seq<State>) {
    && |ss| == |cs| + 1
    && ss[0] == Init(role)
    && forall i | 0 <= i < |cs| :: Legal(ss[i], cs[i]) && ss[i + 1] == Next(ss[i], cs[i])
  }

  function BuiltIn(cs: seq<Seen>, ss: seq<State>): seq<Samples>
    requires |cs| < |ss|
  {
    seq(|cs|, i requires 0 <= i < |cs| => BuiltBy(ss[i], cs[i]))
  }

  function FiredIn(cs: seq<Seen>): seq<seq<Hook>> {
    seq(|cs|, i requires 0 <= i < |cs| => cs[i].hooks)
  }

  /** What the first n calls built, and the hooks fired in them. */
  function BuiltUpTo(cs: seq<Seen>, ss: seq<State>, n: nat): Samples
    requires n <= |cs| < |ss|
  {
    Flat(BuiltIn(cs, ss)[..n])
  }

  function FiredUpTo(cs: seq<Seen>, n: nat): seq<Hook>
    requires n <= |cs|
  {
    Flat(FiredIn(cs)[..n])
  }

  // ----- hooks

  lemma LastHook(s: State, hs: seq<Hook>, more: seq<Hook>)
    requires more != []
    ensures var init, last := more[..|more| - 1], more[|more| - 1];
            AfterHooks(s, more) == OnHook(AfterHooks(s, init), last) && hs + more == hs + init + [last]
    ensures AfterHooks(s, more).role == AfterHooks(s, more[..|more| - 1]).role
  {
  }

  lemma {:induction false} HooksKeepTimings(out: Samples, s: State, hs: seq<Hook>, more: seq<Hook>)
    requires CR.TimingsConserved(s.role, out, s, hs)
    ensures AfterHooks(s, more).role == s.role
    ensures CR.TimingsConserved(s.role, out, AfterHooks(s, more), hs + more)
  {
    if more == [] {
      assert hs + more == hs;
    } else {
      var init, last := more[..|more| - 1], more[|more| - 1];
      LastHook(s, hs, more);
      HooksKeepTimings(out, s, hs, init);
      CR.HookKeepsTimings(out, AfterHooks(s, init), hs + init, last);
    }
  }

  lemma {:induction false} HooksKeepBatches(out: Samples, s: State, hs: seq<Hook>, more: seq<Hook>)
    requires CR.BatchesConserved(s.role, out, s, hs)
    ensures AfterHooks(s, more).role == s.role
    ensures CR.BatchesConserved(s.role, out, AfterHooks(s, more), hs + more)
  {
    if more == [] {
      assert hs + more == hs;
    } else {
      var init, last := more[..|more| - 1], more[|more| - 1];
      LastHook(s, hs, more);
      HooksKeepBatches(out, s, hs, init);
      CR.HookKeepsBatches(out, AfterHooks(s, init), hs + init, last);
    }
  }

  lemma {:induction false} HooksKeepBalance(s: State, more: seq<Hook>, t: GoString)
    requires CR.Balanced(s) && CR.TopicBalanced(s, t)
    ensures AfterHooks(s, more).role == s.role
    ensures CR.Balanced(AfterHooks(s, more)) && CR.TopicBalanced(AfterHooks(s, more), t)
  {
    if more != [] {
      HooksKeepBalance(s, more[..|more| - 1], t);
      CR.HookBalanced(AfterHooks(s, more[..|more| - 1]), more[|more| - 1], t);
    }
  }

  lemma {:induction false} HooksKeepCounts(out: Samples, s: State, hs: seq<Hook>, more: seq<Hook>, t: GoString)
    requires CR.CountsConserved(s.role, out, s, hs, t)
    ensures AfterHooks(s, more).role == s.role
    ensures CR.CountsConserved(s.role, out, AfterHooks(s, more), hs + more, t)
  {
    if more == [] {
      assert hs + more == hs;
    } else {
      var init, last := more[..|more| - 1], more[|more| - 1];
      LastHook(s, hs, more);
      HooksKeepCounts(out, s, hs, init, t);
      CR.HookCounted(out, AfterHooks(s, init), hs + init, last, t);
    }
  }

  // ----- the samples a call adds itself

  lemma AppendOwn(out: Samples, site: Samples, m: Metric, topic: Option<GoString>)
    requires OwnMetrics(site) && IsHookMetric(m)
    ensures Emitted(out + site, m) == Emitted(out, m) && Sum(out + site, m, topic) == Sum(out, m, topic)
  {
    EmittedConcat(out, site, m);
    SumConcat(out, site, m, topic);
    AvoidsNothing(site, m, topic);
  }

  lemma SiteKeepsTimings(out: Samples, site: Samples, s: State, hs: seq<Hook>)
    requires OwnMetrics(site) && CR.TimingsConserved(s.role, out, s, hs)
    ensures CR.TimingsConserved(s.role, out + site, s, hs)
  {
    var h := HandlesOf(s.role);
    AppendOwn(out, site, h.dialSeconds, None);
    AppendOwn(out, site, h.rwSeconds, None);
    AppendOwn(out, site, h.waitSeconds, None);
  }

  lemma SiteKeepsBatches(out: Samples, site: Samples, s: State, hs: seq<Hook>)
    requires OwnMetrics(site) && CR.BatchesConserved(s.role, out, s, hs)
    ensures CR.BatchesConserved(s.role, out + site, s, hs)
  {
    var h := HandlesOf(s.role);
    AppendOwn(out, site, h.batchSize, None);
    AppendOwn(out, site, h.batchBytes, None);
  }

  lemma SiteKeepsCounts(out: Samples, site: Samples, s: State, hs: seq<Hook>, t: GoString)
    requires OwnMetrics(site) && CR.CountsConserved(s.role, out, s, hs, t)
    ensures CR.CountsConserved(s.role, out + site, s, hs, t)
  {
    var h := HandlesOf(s.role);
    AppendOwn(out, site, h.dialCount, None);
    AppendOwn(out, site, h.batchCount, Some(t));
  }

  // ----- one call

  lemma Regroup(a: Samples, b: Samples, c: Samples)
    ensures (a + b) + c == a + (b + c)
  {
  }

  /** One call, with everything built and fired before and after it. */
  predicate IsStep(
    role: Role, out: Samples, hs: seq<Hook>, s: State, c: Seen, s': State, out': Samples, hs': seq<Hook>)
  {
    s.role == role && Legal(s, c) && s' == Next(s, c) && out' == out + BuiltBy(s, c) && hs' == hs + c.hooks
  }

  lemma StepKeepsTrends(
    role: Role, out: Samples, hs: seq<Hook>, s: State, c: Seen, s': State, out': Samples, hs': seq<Hook>)
    requires IsStep(role, out, hs, s, c, s', out', hs')
    requires CR.TimingsConserved(role, out, s, hs) && CR.BatchesConserved(role, out, s, hs)
    ensures s'.role == role && CR.TimingsConserved(role, out', s', hs') && CR.BatchesConserved(role, out', s', hs')
  {
    var fired := AfterHooks(s, c.hooks);
    HooksKeepTimings(out, s, hs, c.hooks);
    HooksKeepBatches(out, s, hs, c.hooks);
    if c.flush.Some? {
      var f := c.flush.value;
      SiteKeepsTimings(out, f.site, fired, hs');
      SiteKeepsBatches(out, f.site, fired, hs');
      CR.DrainKeepsTimings(out + f.site, fired, hs', f.drain);
      CR.DrainKeepsBatches(out + f.site, fired, hs', f.drain);
      Regroup(out, f.site, DrainOutput(fired, f.drain));
    } else {
      assert out' == out;
    }
  }

  lemma StepKeepsCounts(
    role: Role, out: Samples, hs: seq<Hook>, s: State, c: Seen, s': State, out': Samples, hs': seq<Hook>, t: GoString)
    requires IsStep(role, out, hs, s, c, s', out', hs')
    requires CR.Balanced(s) && CR.TopicBalanced(s, t) && CR.CountsConserved(role, out, s, hs, t)
    ensures CR.Balanced(s') && CR.TopicBalanced(s', t) && CR.CountsConserved(role, out', s', hs', t)
    ensures c.flush.Some? ==> Pending(s', t) == 0
  {
    var fired := AfterHooks(s, c.hooks);
    HooksKeepBalance(s, c.hooks, t);
    HooksKeepCounts(out, s, hs, c.hooks, t);
    if c.flush.Some? {
      var f := c.flush.value;
      SiteKeepsCounts(out, f.site, fired, hs', t);
      CR.DrainBalanced(fired, f.drain, t);
      CR.DrainCounted(out + f.site, fired, hs', f.drain, t);
      Regroup(out, f.site, DrainOutput(fired, f.drain));
    } else {
      assert out' == out;
    }
  }

  // ----- whole runs

  lemma UpToStep(role: Role, cs: seq<Seen>, ss: seq<State>, n: nat)
    requires IsRun(role, cs, ss) && n < |cs| && ss[n].role == role
    ensures IsStep(role, BuiltUpTo(cs, ss, n), FiredUpTo(cs, n), ss[n], cs[n],
                   ss[n + 1], BuiltUpTo(cs, ss, n + 1), FiredUpTo(cs, n + 1))
  {
    FlatStep(BuiltIn(cs, ss), n);
    FlatStep(FiredIn(cs), n);
  }

  lemma UpToNone(cs: seq<Seen>, ss: seq<State>, n: nat)
    requires |cs| < |ss| && n == 0
    ensures |BuiltUpTo(cs, ss, n)| == |FiredUpTo(cs, n)| == 0
  {
  }

  /** After any number of calls, the trend values built so far, followed by those
      buffered, are the ones the hooks reported, in order. */
  lemma {:induction false} TrendsConserved(role: Role, cs: seq<Seen>, ss: seq<State>, n: nat)
    requires IsRun(role, cs, ss) && n <= |cs|
    ensures ss[n].role == role
    ensures CR.TimingsConserved(role, BuiltUpTo(cs, ss, n), ss[n], FiredUpTo(cs, n))
    ensures CR.BatchesConserved(role, BuiltUpTo(cs, ss, n), ss[n], FiredUpTo(cs, n))
  {
    if n == 0 {
      UpToNone(cs, ss, n);
      CR.StartTimings(BuiltUpTo(cs, ss, n), ss[n], FiredUpTo(cs, n));
      CR.StartBatches(BuiltUpTo(cs, ss, n), ss[n], FiredUpTo(cs, n));
    } else {
      TrendsConserved(role, cs, ss, n - 1);
      UpToStep(role, cs, ss, n - 1);
      StepKeepsTrends(role, BuiltUpTo(cs, ss, n - 1), FiredUpTo(cs, n - 1), ss[n - 1], cs[n - 1],
                      ss[n], BuiltUpTo(cs, ss, n), FiredUpTo(cs, n));
    }
  }

  /** After any number of calls, pending deltas equal buffer lengths, and the dial
      and batch counters built so far plus the pending deltas are the numbers of
      dials and of each topic's batches. */
  lemma {:induction false} CountsConserved(role: Role, cs: seq<Seen>, ss: seq<State>, n: nat, t: GoString)
    requires IsRun(role, cs, ss) && n <= |cs|
    ensures CR.Balanced(ss[n]) && CR.TopicBalanced(ss[n], t)
    ensures CR.CountsConserved(role, BuiltUpTo(cs, ss, n), ss[n], FiredUpTo(cs, n), t)
    ensures n > 0 && cs[n - 1].flush.Some? ==> Pending(ss[n], t) == 0
  {
    if n == 0 {
      UpToNone(cs, ss, n);
      CR.StartCounts(BuiltUpTo(cs, ss, n), ss[n], FiredUpTo(cs, n), t);
    } else {
      CountsConserved(role, cs, ss, n - 1, t);
      TrendsConserved(role, cs, ss, n - 1);
      UpToStep(role, cs, ss, n - 1);
      StepKeepsCounts(role, BuiltUpTo(cs, ss, n - 1), FiredUpTo(cs, n - 1), ss[n - 1], cs[n - 1],
                      ss[n], BuiltUpTo(cs, ss, n), FiredUpTo(cs, n), t);
    }
  }

  /** A flush leaves nothing pending: everything the hooks reported so far has been
      counted and built. */
  lemma FlushCompletes(role: Role, cs: seq<Seen>, ss: seq<State>, n: nat, t: GoString)
    requires IsRun(role, cs, ss) && n < |cs| && cs[n].flush.Some?
    ensures CR.Complete(role, BuiltUpTo(cs, ss, n + 1), FiredUpTo(cs, n + 1), t)
  {
    TrendsConserved(role, cs, ss, n + 1);
    CountsConserved(role, cs, ss, n + 1, t);
    CR.EmptyTail(BuiltUpTo(cs, ss, n + 1));
  }
}
