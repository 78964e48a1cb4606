/**
 Whole sessions of script calls against one registry client: lookups,
 registrations and writes to the objects handed out, while the registry changes
 (pkg/kafka/schema_registry.go:198-290).
 */
module RegistrySession {
  import opened Prelude
  import opened WireFormat
  import opened CacheKey
  import opened SchemaRegistry

  /** One script action, with the answer the registry would give at that moment.
      Write overwrites the fields of the i-th schema object the script holds. */
  datatype Op =
    | Get(param: Option<SchemaInfo>, reply: Reply)
    | Create(param: Option<SchemaInfo>, registration: Registration)
    | Write(i: nat, info: SchemaInfo)

  datatype Outcome =
    | Looked(result: Result<SchemaInfo>, asked: Option<GoString>)
    | Created(created: Result<SchemaInfo>)
    | Written

  function Step(c: Client, op: Op): (Client, Outcome) {
    match op
    case Get(param, reply) =>
      var l := GetSchemaSpec(c, param, reply);
      (l.client, Looked(l.result, l.asked))
    case Create(param, registration) => (c, Created(CreateSpec(c, param, registration)))
    case Write(_, _) => (c, Written)
  }

  function After(c: Client, ops: seq<Op>): Client
    decreases ops
  {
    if ops == [] then c else After(Step(c, ops[0]).0, ops[1..])
  }

  function Outcomes(c: Client, ops: seq<Op>): (r: seq<Outcome>)
    ensures |r| == |ops|
    decreases ops
  {
    if ops == [] then [] else [Step(c, ops[0]).1] + Outcomes(Step(c, ops[0]).0, ops[1..])
  }

  /** Running a session on the object gives the outcomes computed on values, where
      writes do nothing: no write ever reaches the cache, and no object the script
      holds is a cached one. */
  method RunSession(sr: SchemaRegistry, ops: seq<Op>) returns (outs: seq<Outcome>, held: seq<Schema>)
    requires sr.Valid()
    modifies sr`schemaCache
    ensures sr.Valid()
    ensures outs == Outcomes(old(sr.View()), ops) && sr.View() == After(old(sr.View()), ops)
    ensures forall s | s in held :: s !in sr.Cached()
  {
    outs, held := [], [];
    ghost var start := sr.View();
    assert ops[..0] == [];
    for i := 0 to |ops|
      invariant sr.Valid()
      invariant sr.View() == After(start, ops[..i])
      invariant outs == Outcomes(start, ops[..i])
      invariant forall k | 0 <= k < |held| :: fresh(held[k]) && held[k] !in sr.Cached()
    {
      OneMore(start, ops, i);
      var out, given := Perform(sr, ops[i], held);
      outs, held := outs + [out], held + given;
    }
    assert ops[..|ops|] == ops;
  }

  method Perform(sr: SchemaRegistry, op: Op, held: seq<Schema>) returns (out: Outcome, given: seq<Schema>)
    requires sr.Valid()
    requires forall k | 0 <= k < |held| :: held[k] !in sr.Cached()
    modifies sr`schemaCache, held
    ensures sr.Valid()
    ensures sr.View() == Step(old(sr.View()), op).0 && out == Step(old(sr.View()), op).1
    ensures forall k | 0 <= k < |given| :: fresh(given[k]) && given[k] !in sr.Cached()
    ensures forall k | 0 <= k < |held| :: held[k] !in sr.Cached()
  {
    given := [];
    match op
    case Get(param, reply) =>
      var p := Argument(param);
      assert sr.View() == old(sr.View());
      var r, asked := sr.GetSchema(p, reply);
      if r.Ok? {
        out, given := Looked(Ok(r.value.Info()), asked), [r.value];
      } else {
        out := Looked(Err(r.message), asked);
      }
    case Create(param, registration) =>
      var p := Argument(param);
      var r := sr.CreateSchema(p, registration);
      if r.Ok? {
        out, given := Created(Ok(r.value.Info())), [r.value];
      } else {
        out := Created(Err(r.message));
      }
      assert sr.View() == old(sr.View());
    case Write(i, info) =>
      if i < |held| {
        held[i].Set(info);
      }
      assert sr.View() == old(sr.View());
      out := Written;
  }

  method Argument(param: Option<SchemaInfo>) returns (p: Schema?)
    ensures InfoOf(p) == param && (p != null ==> fresh(p))
  {
    if param.None? {
      return null;
    }
    p := new Schema(param.value);
  }

  lemma {:induction false} OneMore(c: Client, ops: seq<Op>, i: nat)
    requires i < |ops|
    ensures After(c, ops[..i + 1]) == Step(After(c, ops[..i]), ops[i]).0
    ensures Outcomes(c, ops[..i + 1]) == Outcomes(c, ops[..i]) + [Step(After(c, ops[..i]), ops[i]).1]
    decreases i
  {
    if i > 0 {
      OneMore(Step(c, ops[0]).0, ops[1..], i - 1);
      assert ops[..i][1..] == ops[1..][..i - 1];
      assert ops[..i + 1][1..] == ops[1..][..i];
    } else {
      assert ops[..1][1..] == [] && ops[..0] == [];
    }
  }

  // ----- what a lookup answers, told without a cache

  /** op asks for this subject and version: a positive one, or none for the latest,
      which any version that is not positive stands for. */
  predicate Asks(op: Op, subject: GoString, version: Option<int>) {
    op.Get? && op.param.Some? && op.param.value.subject == subject && subject != []
    && match version
       case Some(n) => n >= 1 && op.param.value.version == n
       case None => op.param.value.version <= 0
  }

  /** The answer to the first lookup of this subject and version that the registry
      could answer. */
  function FirstSuccess(ops: seq<Op>, subject: GoString, version: Option<int>): Option<SchemaInfo> {
    if ops == [] then None
    else if Asks(ops[0], subject, version) && ops[0].reply.Found? then Some(ops[0].reply.info)
    else FirstSuccess(ops[1..], subject, version)
  }

  function Answer(reply: Reply): Result<SchemaInfo> {
    match reply
    case Refused(message) => Err(message)
    case Found(info) => Ok(info)
  }

  lemma {:induction false} CacheIsFirstSuccess(c: Client, ops: seq<Op>, subject: GoString, version: Option<int>)
    requires c.configured && c.enableCaching && subject != []
    ensures After(c, ops).configured && After(c, ops).enableCaching
    ensures var key, cache := Key(subject, version), After(c, ops).cache;
            if key in c.cache then key in cache && cache[key] == c.cache[key]
            else if FirstSuccess(ops, subject, version).Some?
            then key in cache && cache[key] == FirstSuccess(ops, subject, version).value
            else key !in cache
    decreases ops
  {
    if ops != [] {
      var op := ops[0];
      CacheIsFirstSuccess(Step(c, op).0, ops[1..], subject, version);
      if op.Get? && op.param.Some? && op.param.value.subject != [] {
        AskedVersion(c, op.param.value, op.reply);
        KeyInjective(subject, version, op.param.value.subject, Wanted(op.param.value));
      }
    }
  }

  lemma {:induction false} OutcomeAt(c: Client, ops: seq<Op>, j: nat)
    requires j < |ops|
    ensures Outcomes(c, ops)[j] == Step(After(c, ops[..j]), ops[j]).1
    decreases j
  {
    if j > 0 {
      OutcomeAt(Step(c, ops[0]).0, ops[1..], j - 1);
      assert ops[..j][1..] == ops[1..][..j - 1];
    }
  }

  /** What the j-th action must answer when it asks for this subject and version:
      the first success before it, without a request; failing that, what the
      registry says. */
  function Expected(ops: seq<Op>, j: nat, subject: GoString, version: Option<int>): Outcome
    requires j < |ops| && Asks(ops[j], subject, version)
  {
    var first := FirstSuccess(ops[..j], subject, version);
    if first.Some? then Looked(Ok(first.value), None)
    else Looked(Answer(ops[j].reply), Some(RequestPath(subject, version)))
  }

  /** With caching on, a lookup answers with the first success ever had for its
      subject and version, without asking the registry; until there is one, it
      asks, and a refusal changes nothing. */
  lemma CachedLookup(ops: seq<Op>, j: nat, subject: GoString, version: Option<int>)
    requires j < |ops| && Asks(ops[j], subject, version)
    ensures Outcomes(Client(true, true, map[]), ops)[j] == Expected(ops, j, subject, version)
  {
    OutcomeAt(Client(true, true, map[]), ops, j);
    CacheIsFirstSuccess(Client(true, true, map[]), ops[..j], subject, version);
  }

  lemma {:induction false} NeverCaches(c: Client, ops: seq<Op>)
    requires !c.enableCaching
    ensures After(c, ops) == c
  {
    if ops != [] {
      NeverCaches(c, ops[1..]);
    }
  }

  /** With caching off, every lookup asks the registry and answers as it does. */
  lemma UncachedLookup(ops: seq<Op>, j: nat, subject: GoString, version: Option<int>)
    requires j < |ops| && Asks(ops[j], subject, version)
    ensures Outcomes(Client(true, false, map[]), ops)[j] == Looked(Answer(ops[j].reply), Some(RequestPath(subject, version)))
  {
    OutcomeAt(Client(true, false, map[]), ops, j);
    NeverCaches(Client(true, false, map[]), ops[..j]);
  }

  lemma ExpectedStays(ops: seq<Op>, i: nat, j: nat, subject: GoString, version: Option<int>)
    requires i < j < |ops| && Asks(ops[i], subject, version) && Asks(ops[j], subject, version)
    requires Expected(ops, i, subject, version).result.Ok?
    ensures Expected(ops, j, subject, version) == Looked(Expected(ops, i, subject, version).result, None)
  {
    FirstSuccessSplit(ops[..j], i, subject, version);
    assert ops[..j][..i] == ops[..i];
    assert ops[..j][i..][0] == ops[i];
  }

  /** After one success for a subject and version, the registry is never asked for
      it again, whatever else the session does. */
  lemma FetchedOnce(ops: seq<Op>, i: nat, j: nat, subject: GoString, version: Option<int>)
    requires i < j < |ops| && Asks(ops[i], subject, version) && Asks(ops[j], subject, version)
    ensures Outcomes(Client(true, true, map[]), ops)[i].Looked?
    ensures var first := Outcomes(Client(true, true, map[]), ops)[i].result;
            first.Ok? ==> Outcomes(Client(true, true, map[]), ops)[j] == Looked(first, None)
  {
    CachedLookup(ops, i, subject, version);
    CachedLookup(ops, j, subject, version);
    if Expected(ops, i, subject, version).result.Ok? {
      ExpectedStays(ops, i, j, subject, version);
    }
  }

  /** The first success of a history is that of its prefix, or comes later. */
  lemma {:induction false} FirstSuccessSplit(ops: seq<Op>, i: nat, subject: GoString, version: Option<int>)
    requires i < |ops|
    ensures FirstSuccess(ops, subject, version)
            == if FirstSuccess(ops[..i], subject, version).Some? then FirstSuccess(ops[..i], subject, version)
               else FirstSuccess(ops[i..], subject, version)
  {
    if i > 0 && !(Asks(ops[0], subject, version) && ops[0].reply.Found?) {
      FirstSuccessSplit(ops[1..], i - 1, subject, version);
      assert ops[..i][1..] == ops[1..][..i - 1];
      assert ops[1..][i - 1..] == ops[i..];
    }
  }

  /** After a lookup that succeeded, the next one gets the same answer without asking
      exactly when it is for the same subject, and for the same version or both for
      the latest; any other asks. */
  lemma SharedAnswer(first: SchemaInfo, second: SchemaInfo, answer: SchemaInfo, reply: Reply)
    requires first.subject != [] && second.subject != []
    ensures var ops := [Get(Some(first), Found(answer)), Get(Some(second), reply)];
            var shared := first.subject == second.subject
                          && (first.version == second.version || (first.version <= 0 && second.version <= 0));
            var next := Outcomes(Client(true, true, map[]), ops)[1];
            next.Looked? && (next.asked.None? <==> shared)
            && next.result == if shared then Ok(answer) else Answer(reply)
  {
    var ops := [Get(Some(first), Found(answer)), Get(Some(second), reply)];
    var version := if second.version >= 1 then Some(second.version) else None;
    assert Asks(ops[1], second.subject, version);
    CachedLookup(ops, 1, second.subject, version);
    var before := ops[..1];
    assert before[0] == ops[0] && |before[1..]| == 0;
    assert FirstSuccess(before[1..], second.subject, version).None?;
  }
}
