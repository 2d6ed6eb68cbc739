/** The in-memory job table: a map from id to record that, like a
    JavaScript `Map`, remembers the order in which ids were first inserted. */
module JobStore {
  import opened Base
  import opened Shared

  datatype Store = Store(order: seq<string>, jobs: map<string, Job>)

  /** `order` lists every stored id exactly once. */
  predicate Valid(s: Store) {
    && (forall i, j :: 0 <= i < j < |s.order| ==> s.order[i] != s.order[j])
    && s.jobs.Keys == set k | k in s.order
  }

  const Empty: Store := Store([], map[])

  /** Every record sits under its own id. */
  predicate KeyedById(s: Store) {
    forall k :: k in s.jobs ==> s.jobs[k].id == k
  }

  /** `jobs.get(id)` */
  function Get(s: Store, id: string): Option<Job> {
    if id in s.jobs then Some(s.jobs[id]) else None
  }

  /** `jobs.set(id, job)`: a new id goes to the end of the order, an existing
      one keeps its place and has its record replaced. */
  function Put(s: Store, id: string, job: Job): (r: Store)
    requires Valid(s)
    ensures Valid(r)
    ensures r.jobs == s.jobs[id := job]
    ensures id in s.jobs ==> r.order == s.order
    ensures id !in s.jobs ==> r.order == s.order + [id]
  {
    if id in s.jobs then Store(s.order, s.jobs[id := job])
    else Store(s.order + [id], s.jobs[id := job])
  }

  /** Replacing a record by one with the same id keeps every record under
      its own id. */
  lemma PutKeepsKeyedById(s: Store, id: string, job: Job)
    requires Valid(s) && KeyedById(s) && job.id == id
    ensures KeyedById(Put(s, id, job))
  {
  }

  lemma {:induction false} DistinctCardinality(xs: seq<string>)
    requires forall i, j :: 0 <= i < j < |xs| ==> xs[i] != xs[j]
    ensures |set x | x in xs| == |xs|
    decreases |xs|
  {
    if |xs| > 0 {
      var tail := xs[1..];
      DistinctCardinality(tail);
      assert (set x | x in xs) == (set x | x in tail) + {xs[0]};
      assert xs[0] !in tail;
    }
  }

  /** `Array.from(jobs.values())`: every stored record exactly once, in
      insertion order. */
  function Values(s: Store): (r: seq<Job>)
    requires Valid(s)
    ensures |r| == |s.jobs| == |s.order|
    ensures forall j :: j in r <==> j in s.jobs.Values
    ensures forall i :: 0 <= i < |r| ==> r[i] == s.jobs[s.order[i]]
  {
    DistinctCardinality(s.order);
    var r := seq(|s.order|, i requires 0 <= i < |s.order| => s.jobs[s.order[i]]);
    assert forall j :: j in s.jobs.Values ==> j in r by {
      forall j | j in s.jobs.Values ensures j in r {
        var k :| k in s.jobs && s.jobs[k] == j;
        var i :| 0 <= i < |s.order| && s.order[i] == k;
        assert r[i] == j;
      }
    }
    r
  }

  /** The listing follows insertion order: a new id's record comes last. */
  lemma PutNewThenValues(s: Store, id: string, job: Job)
    requires Valid(s) && id !in s.jobs
    ensures Values(Put(s, id, job)) == Values(s) + [job]
  {
    var r := Put(s, id, job);
    var before := Values(s);
    var after := Values(r);
    assert |after| == |before| + 1;
    forall k | 0 <= k < |after| ensures after[k] == (before + [job])[k] {
      if k < |s.order| {
        assert r.order[k] == s.order[k] != id;
      }
    }
  }

  /** Replacing a record keeps its place in the listing. */
  lemma PutExistingThenValues(s: Store, id: string, job: Job, i: nat)
    requires Valid(s) && i < |s.order| && s.order[i] == id
    ensures Values(Put(s, id, job)) == Values(s)[i := job]
  {
    var r := Put(s, id, job);
    var before := Values(s);
    var after := Values(r);
    forall k | 0 <= k < |after| ensures after[k] == before[i := job][k] {
      if k != i {
        assert s.order[k] != id;
      }
    }
  }
}
