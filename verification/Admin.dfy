/** Manual replica assignments (pkg/kafka/admin.go:28-41, 171-199). */
module Admin {
  import opened Prelude

  const MAX_INT32: int := 0x7fff_ffff

  datatype ReplicaAssignment = ReplicaAssignment(partition: int, replicas: seq<int>)

  /** The value a fresh slot holds. */
  const ZERO := ReplicaAssignment(0, [])

  predicate Names(a: seq<ReplicaAssignment>, p: int) {
    exists i :: 0 <= i < |a| && a[i].partition == p
  }

  /** The partition IDs are a permutation of 0 to N-1. */
  ghost predicate Dense(a: seq<ReplicaAssignment>) {
    && (forall p | 0 <= p < |a| :: Names(a, p))
    && (forall i | 0 <= i < |a| :: 0 <= a[i].partition < |a|)
    && (forall i, j | 0 <= i < j < |a| :: a[i].partition != a[j].partition)
  }

  /** In range and pairwise different. */
  predicate DistinctInRange(a: seq<ReplicaAssignment>, n: int) {
    && (forall i | 0 <= i < |a| :: 0 <= a[i].partition < n)
    && (forall i, j | 0 <= i < j < |a| :: a[i].partition != a[j].partition)
  }

  /** The partitions the loop has met. */
  function Seen(a: seq<ReplicaAssignment>): set<int> {
    if a == [] then {} else Seen(a[..|a| - 1]) + {a[|a| - 1].partition}
  }

  /** The loop gets past every entry of a. */
  predicate Passes(a: seq<ReplicaAssignment>, n: int) {
    a == []
    || (Passes(a[..|a| - 1], n) && 0 <= a[|a| - 1].partition < n && a[|a| - 1].partition !in Seen(a[..|a| - 1]))
  }

  /** The slots after the entries of a. */
  function Placed(a: seq<ReplicaAssignment>, n: nat): (r: seq<ReplicaAssignment>)
    requires Passes(a, n)
    ensures |r| == n
  {
    if a == [] then seq(n, _ => ZERO)
    else Placed(a[..|a| - 1], n)[a[|a| - 1].partition := a[|a| - 1]]
  }

  lemma {:induction false} SeenAt(a: seq<ReplicaAssignment>)
    ensures forall i | 0 <= i < |a| :: a[i].partition in Seen(a)
    ensures forall p | p in Seen(a) :: Names(a, p)
  {
    if a != [] {
      var init := a[..|a| - 1];
      SeenAt(init);
      forall p | p in Seen(a)
        ensures Names(a, p)
      {
        if p in Seen(init) {
          var i :| 0 <= i < |init| && init[i].partition == p;
          assert a[i].partition == p;
        } else {
          assert a[|a| - 1].partition == p;
        }
      }
      assert forall i | 0 <= i < |a| - 1 :: a[i] == init[i];
    }
  }

  lemma {:induction false} PassesExact(a: seq<ReplicaAssignment>, n: int)
    ensures Passes(a, n) <==> DistinctInRange(a, n)
  {
    if a != [] {
      var init, last := a[..|a| - 1], a[|a| - 1];
      PassesExact(init, n);
      SeenAt(init);
      assert forall i | 0 <= i < |init| :: a[i] == init[i];
      if last.partition in Seen(init) {
        var i :| 0 <= i < |init| && init[i].partition == last.partition;
        assert a[i].partition == a[|a| - 1].partition;
      }
    }
  }

  lemma {:induction false} PassesPrefix(a: seq<ReplicaAssignment>, n: int, i: nat)
    requires i <= |a| && Passes(a, n)
    ensures Passes(a[..i], n)
  {
    if i < |a| {
      PassesPrefix(a[..|a| - 1], n, i);
      assert a[..|a| - 1][..i] == a[..i];
    } else {
      assert a[..i] == a;
    }
  }

  lemma {:induction false} PlacedAt(a: seq<ReplicaAssignment>, n: nat)
    requires Passes(a, n)
    ensures forall i | 0 <= i < |a| :: 0 <= a[i].partition < n && Placed(a, n)[a[i].partition] == a[i]
  {
    if a != [] {
      var init := a[..|a| - 1];
      PlacedAt(init, n);
      SeenAt(init);
      assert forall i | 0 <= i < |init| :: a[i] == init[i];
    }
  }

  lemma {:induction false} DistinctCount(a: seq<ReplicaAssignment>)
    requires forall i, j | 0 <= i < j < |a| :: a[i].partition != a[j].partition
    ensures |Seen(a)| == |a|
  {
    if a != [] {
      var init := a[..|a| - 1];
      DistinctCount(init);
      SeenAt(init);
    }
  }

  function UpTo(n: nat): (r: set<int>)
    ensures |r| == n && forall p :: p in r <==> 0 <= p < n
  {
    if n == 0 then {} else UpTo(n - 1) + {n - 1}
  }

  lemma SubsetOfSameSize(a: set<int>, b: set<int>)
    requires a <= b && |a| == |b|
    ensures a == b
  {
    assert b == a + (b - a);
    assert |b| == |a| + |b - a|;
  }

  /** Pigeonhole: N distinct IDs in 0..N-1 leave none out. */
  lemma DistinctInRangeIsDense(a: seq<ReplicaAssignment>)
    ensures DistinctInRange(a, |a|) <==> Dense(a)
  {
    if DistinctInRange(a, |a|) {
      DistinctCount(a);
      SeenAt(a);
      SubsetOfSameSize(Seen(a), UpTo(|a|));
      forall p: int | 0 <= p < |a|
        ensures Names(a, p)
      {
        assert p in UpTo(|a|);
      }
    }
  }

  /** Entries of different partitions occur once each. */
  lemma {:induction false} DistinctOnce(a: seq<ReplicaAssignment>, x: ReplicaAssignment)
    requires forall i, j | 0 <= i < j < |a| :: a[i].partition != a[j].partition
    ensures multiset(a)[x] == if x in a then 1 else 0
  {
    if a != [] {
      var init, last := a[..|a| - 1], a[|a| - 1];
      DistinctOnce(init, x);
      assert a == init + [last];
    }
  }

  /** out has the entry for partition p in slot p. */
  predicate Slotted(a: seq<ReplicaAssignment>, out: seq<ReplicaAssignment>) {
    |out| == |a| && forall i | 0 <= i < |a| :: 0 <= a[i].partition < |a| && out[a[i].partition] == a[i]
  }

  /** Slotting a dense layout only reorders it: every slot is written, by the entry
      of its own partition, and nothing is lost or repeated. */
  lemma SlottedReorders(a: seq<ReplicaAssignment>, out: seq<ReplicaAssignment>)
    requires Dense(a) && Slotted(a, out)
    ensures forall p | 0 <= p < |out| :: out[p] in a && out[p].partition == p
    ensures multiset(out) == multiset(a)
  {
    forall p | 0 <= p < |out|
      ensures out[p] in a && out[p].partition == p
    {
      assert Names(a, p);
      var i :| 0 <= i < |a| && a[i].partition == p;
    }
    forall x
      ensures multiset(out)[x] == multiset(a)[x]
    {
      DistinctOnce(a, x);
      DistinctOnce(out, x);
      if x in a {
        var i :| 0 <= i < |a| && a[i] == x;
        assert out[a[i].partition] == x;
      }
    }
  }

  /** buildReplicaAssignments: it succeeds exactly on permutations of 0 to N-1 whose
      size fits int32, and then slot p holds the entry for partition p. */
  method BuildReplicaAssignments(a: seq<ReplicaAssignment>) returns (r: Result<seq<ReplicaAssignment>>)
    ensures r.Ok? <==> |a| <= MAX_INT32 && Dense(a)
    ensures r.Ok? ==> forall p | 0 <= p < |r.value| :: r.value[p] in a && r.value[p].partition == p
    ensures r.Ok? ==> multiset(r.value) == multiset(a)
  {
    if |a| > MAX_INT32 {
      return Err("too many replica assignments");
    }
    DistinctInRangeIsDense(a);
    PassesExact(a, |a|);
    var out := new ReplicaAssignment[|a|](_ => ZERO);
    var failure := FillSlots(a, out);
    if failure.Some? {
      return Err(failure.value);
    }
    PlacedAt(a, |a|);
    SlottedReorders(a, out[..]);
    return Ok(out[..]);
  }

  /** The loop over the entries, writing out in place. */
  method FillSlots(a: seq<ReplicaAssignment>, out: array<ReplicaAssignment>) returns (failure: Option<string>)
    requires out.Length == |a| && out[..] == seq(|a|, _ => ZERO)
    modifies out
    ensures failure.None? <==> Passes(a, |a|)
    ensures failure.None? ==> out[..] == Placed(a, |a|)
  {
    var seen: set<int> := {};
    for i := 0 to |a|
      invariant Passes(a[..i], |a|)
      invariant seen == Seen(a[..i]) && out[..] == Placed(a[..i], |a|)
    {
      var p := a[i].partition;
      assert a[..i + 1][..i] == a[..i];
      if p < 0 || p >= |a| || p in seen {
        if Passes(a, |a|) {
          PassesPrefix(a, |a|, i + 1);
        }
        return Some(if p in seen then "duplicate replica assignment" else "partition out of range");
      }
      seen := seen + {p};
      out[p] := ReplicaAssignment(p, a[i].replicas);
    }
    assert a[..|a|] == a;
    return None;
  }
}
