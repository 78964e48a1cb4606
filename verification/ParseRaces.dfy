/**
 Any number of callers at once, each in an operation that may parse one schema: in
 parsedAvro the read lock and the write lock make the lookup and the store atomic,
 and other callers run in between (pkg/kafka/schema_registry.go:175-196).
 */
module ParseRaces {
  import opened Prelude

  /** The operations: which schema a request parses, if any, and its answer given
      what parsing yielded. */
  datatype Service<!R, !P, !A> = Service(
    parse: GoString -> Option<P>,
    key: R -> Option<GoString>,
    finish: (R, Option<P>) -> A)

  /** The answer to a request when nothing is cached. */
  function Direct<R, P, A>(svc: Service<R, P, A>, r: R): A {
    var k := svc.key(r);
    svc.finish(r, if k.Some? then svc.parse(k.value) else None)
  }

  /** Where one caller stands; s is the schema its request parses. */
  datatype Caller<R, P, A> =
    | Looking(r: R, s: GoString)        // before the read-locked lookup
    | Parsing(r: R, s: GoString)        // missed, about to parse
    | Storing(r: R, s: GoString, p: P)  // parsed, before the write-locked store
    | Finished(answer: A)

  /** cache is None in a client built without a parse cache; log holds the requests
      answered, in order. */
  datatype State<R, P, A> = State(
    cache: Option<map<GoString, P>>,
    callers: map<nat, Caller<R, P, A>>,
    log: seq<(R, A)>)

  datatype Step<R> = Call(caller: nat, r: R) | Advance(caller: nat)

  predicate Enabled<R, P, A>(st: State<R, P, A>, step: Step<R>) {
    match step
    case Call(c, _) => c !in st.callers || st.callers[c].Finished?
    case Advance(c) => c in st.callers && !st.callers[c].Finished?
  }

  function Finish<R, P, A>(
    svc: Service<R, P, A>, st: State<R, P, A>, c: nat, r: R, parsed: Option<P>): State<R, P, A>
  {
    var a := svc.finish(r, parsed);
    st.(callers := st.callers[c := Finished(a)], log := st.log + [(r, a)])
  }

  function Next<R, P, A>(svc: Service<R, P, A>, st: State<R, P, A>, step: Step<R>): State<R, P, A>
    requires Enabled(st, step)
  {
    match step
    case Call(c, r) =>
      if svc.key(r).None? then Finish(svc, st, c, r, None)
      else st.(callers := st.callers[c := Looking(r, svc.key(r).value)])
    case Advance(c) =>
      match st.callers[c]
      case Looking(r, s) =>
        if st.cache.Some? && s in st.cache.value then Finish(svc, st, c, r, Some(st.cache.value[s]))
        else st.(callers := st.callers[c := Parsing(r, s)])
      case Parsing(r, s) =>
        if svc.parse(s).None? || st.cache.None? then Finish(svc, st, c, r, svc.parse(s))
        else st.(callers := st.callers[c := Storing(r, s, svc.parse(s).value)])
      case Storing(r, s, p) =>
        Finish(svc, st.(cache := if st.cache.Some? then Some(st.cache.value[s := p]) else None), c, r, Some(p))
  }

  /** The states of a run from an empty cache, or from none. */
  ghost predicate IsRun<R, P, A>(
    svc: Service<R, P, A>, cached: bool, steps: seq<Step<R>>, states: seq<State<R, P, A>>)
  {
    && |states| == |steps| + 1
    && states[0] == State(if cached then Some(map[]) else None, map[], [])
    && forall i | 0 <= i < |steps| :: Enabled(states[i], steps[i]) && states[i + 1] == Next(svc, states[i], steps[i])
  }

  /** A caller parses what its request names, and carries what parsing that yields. */
  ghost predicate CallerOk<R, P, A>(svc: Service<R, P, A>, c: Caller<R, P, A>) {
    && (!c.Finished? ==> svc.key(c.r) == Some(c.s))
    && (c.Storing? ==> svc.parse(c.s) == Some(c.p))
  }

  /** Every entry is what parsing its key yields, so no failure is ever stored, and
      every request answered got the answer it gets when nothing is cached. */
  ghost predicate Transparent<R, P, A>(svc: Service<R, P, A>, st: State<R, P, A>) {
    && (st.cache.Some? ==> forall k | k in st.cache.value :: svc.parse(k) == Some(st.cache.value[k]))
    && (forall c | c in st.callers :: CallerOk(svc, st.callers[c]))
    && (forall i | 0 <= i < |st.log| :: st.log[i].1 == Direct(svc, st.log[i].0))
  }

  lemma StepTransparent<R, P, A>(svc: Service<R, P, A>, st: State<R, P, A>, step: Step<R>)
    requires Enabled(st, step) && Transparent(svc, st)
    ensures Transparent(svc, Next(svc, st, step))
    ensures Next(svc, st, step).cache.Some? <==> st.cache.Some?
  {
  }

  lemma {:induction false} AlwaysTransparent<R, P, A>(
    svc: Service<R, P, A>, cached: bool, steps: seq<Step<R>>, states: seq<State<R, P, A>>, i: nat)
    requires IsRun(svc, cached, steps, states) && i < |states|
    ensures Transparent(svc, states[i])
    ensures states[i].cache.Some? <==> cached
  {
    if i > 0 {
      AlwaysTransparent(svc, cached, steps, states, i - 1);
      StepTransparent(svc, states[i - 1], steps[i - 1]);
      assert states[i] == Next(svc, states[i - 1], steps[i - 1]);
    }
  }

  /** An entry, once stored, is never lost or changed, whoever stores it again. */
  lemma {:induction false} EntriesStay<R, P, A>(
    svc: Service<R, P, A>, steps: seq<Step<R>>, states: seq<State<R, P, A>>, i: nat, j: nat, k: GoString)
    requires IsRun(svc, true, steps, states) && i <= j < |states|
    ensures states[i].cache.Some? && states[j].cache.Some?
    ensures k in states[i].cache.value ==>
              k in states[j].cache.value && states[j].cache.value[k] == states[i].cache.value[k]
    decreases j
  {
    AlwaysTransparent(svc, true, steps, states, i);
    AlwaysTransparent(svc, true, steps, states, j);
    if i < j {
      EntriesStay(svc, steps, states, i, j - 1, k);
      assert states[j] == Next(svc, states[j - 1], steps[j - 1]);
    }
  }

  /** Two clients, one with the cache and one without, whose callers run in any two
      interleavings, give the same answer to the same request. */
  lemma CacheInvisible<R, P, A>(
    svc: Service<R, P, A>, steps1: seq<Step<R>>, states1: seq<State<R, P, A>>,
    steps2: seq<Step<R>>, states2: seq<State<R, P, A>>, i: nat, j: nat)
    requires IsRun(svc, true, steps1, states1) && IsRun(svc, false, steps2, states2)
    requires i < |states1[|steps1|].log| && j < |states2[|steps2|].log|
    requires states1[|steps1|].log[i].0 == states2[|steps2|].log[j].0
    ensures states1[|steps1|].log[i].1 == states2[|steps2|].log[j].1
  {
    AlwaysTransparent(svc, true, steps1, states1, |steps1|);
    AlwaysTransparent(svc, false, steps2, states2, |steps2|);
  }
}
