/** The persistent progress record of one mapping job (`ShardedTaskMarker`): the job's shards
    partitioned into queued, running and finished, and a completion flag; the datastore and the
    task queue it is saved to; and the dispatch and worker steps that move shards between the lists. */
module TaskMarkers {
  import opened Wrappers
  import opened Keys
  import opened Seqs
  import opened Sharding

  /** The kind of every marker entity. */
  const MarkerKind: string := "_djangae_migration_task"

  /** `begin_processing` moves at most this many shards per transaction. */
  const BatchSize: nat := 3

  /** `ShardedTaskMarker.get_key`: the marker of a job is named by its identifier. */
  function MarkerKey(identifier: string, namespace: string): (k: Key)
    ensures k.kind == MarkerKind && k.namespace == namespace
  {
    Key(MarkerKind, Name(identifier), namespace)
  }

  lemma MarkerKeyInjective(id1: string, ns1: string, id2: string, ns2: string)
    ensures MarkerKey(id1, ns1) == MarkerKey(id2, ns2) <==> id1 == id2 && ns1 == ns2
  {
  }

  /** A marker as it is stored: the source query, the three shard lists and `is_finished`. */
  datatype Marker = Marker(query: Query, queued: seq<Shard>, running: seq<Shard>, finished: seq<Shard>, isFinished: bool)

  /** A call waiting in the deferred task queue. */
  datatype Task =
    | BeginTask(marker: Key, query: Query)                // `begin_processing` of the marker
    | ShardTask(marker: Key, query: Query, shard: Shard)  // `run_shard` of one shard

  /** `datastore.Get` of a marker that is not there raises `EntityNotFoundError`. */
  datatype MarkerError = MarkerMissing

  // ---------------------------------------------------------------------------------------------
  // The marker's transitions as values

  /** `put`: while the flag is still false it becomes whether nothing is queued or running and
      something has finished; a true flag is left alone. */
  function AfterPut(m: Marker): (r: Marker)
    ensures r.query == m.query && r.queued == m.queued && r.running == m.running && r.finished == m.finished
  {
    if m.isFinished then m
    else m.(isFinished := m.queued == [] && m.running == [] && m.finished != [])
  }

  /** A true flag is never reset, and a false one becomes true exactly when the job has drained. */
  lemma AfterPutFlag(m: Marker)
    ensures m.isFinished ==> AfterPut(m).isFinished
    ensures !m.isFinished ==> (AfterPut(m).isFinished <==> m.queued == [] && m.running == [] && m.finished != [])
  {
  }

  /** `put` is idempotent: saving twice is saving once. */
  lemma AfterPutIdempotent(m: Marker)
    ensures AfterPut(AfterPut(m)) == AfterPut(m)
  {
  }

  /** The marker `start_mapping` saves: every shard queued, and finished at once when there is none. */
  function Created(query: Query, shards: seq<Shard>): (m: Marker)
    ensures m.queued == shards && m.running == [] && m.finished == []
    ensures m.isFinished <==> shards == []
  {
    Marker(query, shards, [], [], shards == [])
  }

  /** All shards the marker holds, in whichever list. */
  function Contents(m: Marker): multiset<Shard> {
    multiset(m.queued) + multiset(m.running) + multiset(m.finished)
  }

  /** The marker of a job over `shards`: every shard is in exactly one list, as often as it was
      given, and the job is finished exactly when nothing is queued or running. */
  predicate JobInvariant(m: Marker, shards: multiset<Shard>) {
    && Contents(m) == shards
    && (m.isFinished <==> m.queued == [] && m.running == [])
  }

  lemma CreatedJobInvariant(query: Query, shards: seq<Shard>)
    ensures JobInvariant(Created(query, shards), multiset(shards))
  {
  }

  /** How many shards one transaction of `begin_processing` moves. */
  function BatchCount(m: Marker): nat {
    Min(BatchSize, |m.queued|)
  }

  /** One transaction of `begin_processing`: pop a batch from the tail of the queued list onto the
      running list (the last queued shard first), then `put`. */
  function MoveBatch(m: Marker): (r: Marker)
    ensures |r.queued| == |m.queued| - BatchCount(m)
    ensures r.queued == m.queued[..|m.queued| - BatchCount(m)]
    ensures r.running == m.running + Reversed(m.queued[|m.queued| - BatchCount(m)..])
    ensures r.finished == m.finished && r.query == m.query
  {
    var n := |m.queued| - BatchCount(m);
    AfterPut(m.(queued := m.queued[..n], running := m.running + Reversed(m.queued[n..])))
  }


  /** The worker tasks one batch defers, in the order the shards are popped. */
  function ShardTasks(marker: Key, query: Query, shards: seq<Shard>): (r: seq<Task>)
    ensures |r| == |shards|
    ensures forall i :: 0 <= i < |r| ==> r[i] == ShardTask(marker, query, shards[i])
  {
    if shards == [] then [] else [ShardTask(marker, query, shards[0])] + ShardTasks(marker, query, shards[1..])
  }

  lemma ShardTasksAppend(marker: Key, query: Query, a: seq<Shard>, b: seq<Shard>)
    ensures ShardTasks(marker, query, a + b) == ShardTasks(marker, query, a) + ShardTasks(marker, query, b)
  {
    var r := ShardTasks(marker, query, a + b);
    var t := ShardTasks(marker, query, a) + ShardTasks(marker, query, b);
    assert |r| == |t|;
    forall i | 0 <= i < |r| ensures r[i] == t[i] {
      if i < |a| {
        assert (a + b)[i] == a[i];
      } else {
        assert (a + b)[i] == b[i - |a|];
      }
    }
  }

  /** A batch conserves the shards and keeps the job invariant; the flag does not change. */
  lemma MoveBatchKeepsJob(m: Marker, shards: multiset<Shard>)
    requires JobInvariant(m, shards)
    ensures JobInvariant(MoveBatch(m), shards)
    ensures MoveBatch(m).isFinished == m.isFinished
  {
    var n := |m.queued| - BatchCount(m);
    assert m.queued == m.queued[..n] + m.queued[n..];
    assert multiset(m.queued) == multiset(m.queued[..n]) + multiset(m.queued[n..]);
    ReversedMultiset(m.queued[n..]);
  }

  /** `run_shard`'s transaction: take the shard off the running list, append it to the finished list,
      then `put`. */
  function CompleteShard(m: Marker, shard: Shard): (r: Marker)
    requires shard in m.running
    ensures r.queued == m.queued && r.finished == m.finished + [shard] && r.query == m.query
    ensures multiset(r.running) == multiset(m.running) - multiset{shard}
  {
    AfterPut(m.(running := RemoveFirst(m.running, shard), finished := m.finished + [shard]))
  }

  /** Completing a running shard conserves the shards and keeps the job invariant; the job is
      finished afterwards exactly when this was the last shard queued or running. */
  lemma CompleteShardKeepsJob(m: Marker, shards: multiset<Shard>, shard: Shard)
    requires JobInvariant(m, shards) && shard in m.running
    ensures JobInvariant(CompleteShard(m, shard), shards)
    ensures CompleteShard(m, shard).isFinished <==> m.queued == [] && m.running == [shard]
  {
    var r := CompleteShard(m, shard);
    assert shard in multiset(m.running);
    assert |r.running| == 0 <==> |m.running| == 1;
    if m.running == [shard] {
      assert r.running == [];
    }
    if |m.running| == 1 {
      assert m.running[0] == shard;
      assert m.running == [shard];
    }
  }

  /** A redelivered worker finds its shard no longer running once it has completed, provided the
      shard was running once; so a second run changes nothing. */
  lemma CompleteShardOnce(m: Marker, shard: Shard)
    requires shard in m.running && multiset(m.running)[shard] == 1
    ensures shard !in CompleteShard(m, shard).running
  {
    var r := CompleteShard(m, shard);
    assert multiset(r.running)[shard] == 0;
  }

  /** In a job over distinct shards a running shard runs exactly once, so completing it takes it off
      the running list and a redelivered worker for it returns at the guard. */
  lemma CompleteJobShardOnce(m: Marker, shards: seq<Shard>, shard: Shard)
    requires JobInvariant(m, multiset(shards)) && NoDuplicates(shards) && shard in m.running
    ensures multiset(m.running)[shard] == 1
    ensures shard !in CompleteShard(m, shard).running
  {
    NoDuplicatesMultiset(shards);
    assert multiset(m.running)[shard] <= Contents(m)[shard];
    CompleteShardOnce(m, shard);
  }

  /** Popping the last of the first `c` queued shards onto the running list. */
  lemma PopOne(q: seq<Shard>, c: nat)
    requires 0 < c <= |q|
    ensures q[..c][..c - 1] == q[..c - 1] && q[..c][c - 1] == q[c - 1]
    ensures Reversed(q[c - 1..]) == Reversed(q[c..]) + [q[c - 1]]
  {
    assert q[c - 1..] == [q[c - 1]] + q[c..];
    ReversedAppend([q[c - 1]], q[c..]);
    assert Reversed([q[c - 1]]) == [q[c - 1]] by {
      assert [q[c - 1]][1..] == [];
    }
  }

  /** The loop of one batch: `n` times `queued.pop()` appended to the running list. The popped shards
      are the last `n` queued, the last one first. */
  method PopShards(queued: seq<Shard>, running: seq<Shard>, n: nat) returns (q: seq<Shard>, run: seq<Shard>, popped: seq<Shard>)
    requires n <= |queued|
    ensures q == queued[..|queued| - n]
    ensures popped == Reversed(queued[|queued| - n..])
    ensures run == running + popped
  {
    var count := |queued|;
    q, run, popped := queued, running, [];
    var j := 0;
    assert queued[count..] == [];
    while j < n
      invariant 0 <= j <= n
      invariant q == queued[..count - j]
      invariant popped == Reversed(queued[count - j..])
      invariant run == running + popped
    {
      PopOne(queued, count - j);
      var shard := q[|q| - 1];
      q := q[..|q| - 1];
      run := run + [shard];
      popped := popped + [shard];
      j := j + 1;
    }
  }

  /** The shards one batch moves, in the order they are popped: the last queued first. */
  function Batch(m: Marker): (b: seq<Shard>)
    ensures |b| == BatchCount(m)
  {
    Reversed(m.queued[|m.queued| - BatchCount(m)..])
  }

  /** The marker once the last `moved` queued shards have been moved to the running list. */
  function Drained(m: Marker, moved: nat): (r: Marker)
    requires moved <= |m.queued|
    ensures r.queued == m.queued[..|m.queued| - moved] && r.finished == m.finished
    ensures r.isFinished == m.isFinished && r.query == m.query
  {
    m.(queued := m.queued[..|m.queued| - moved], running := m.running + Reversed(m.queued[|m.queued| - moved..]))
  }

  /** The workers deferred for those shards, in the same order. */
  function DrainTasks(marker: Key, query: Query, m: Marker, moved: nat): seq<Task>
    requires moved <= |m.queued|
  {
    ShardTasks(marker, query, Reversed(m.queued[|m.queued| - moved..]))
  }

  lemma DrainedNone(marker: Key, query: Query, m: Marker)
    ensures Drained(m, 0) == m && DrainTasks(marker, query, m, 0) == []
  {
    assert m.queued[..|m.queued|] == m.queued && m.queued[|m.queued|..] == [];
  }

  /** The batch after `moved` shards is the reversal of the next slice towards the front. */
  lemma DrainBatch(m: Marker, moved: nat)
    requires moved < |m.queued|
    ensures var k := BatchCount(Drained(m, moved));
      && 0 < k && moved + k == Min(moved + BatchSize, |m.queued|)
      && Batch(Drained(m, moved)) == Reversed(m.queued[|m.queued| - moved - k..|m.queued| - moved])
      && Reversed(m.queued[|m.queued| - moved - k..]) ==
           Reversed(m.queued[|m.queued| - moved..]) + Batch(Drained(m, moved))
  {
    var n := |m.queued|;
    var cur := Drained(m, moved);
    var k := BatchCount(cur);
    var q := m.queued;
    var a := n - moved - k;
    var b := n - moved;
    assert cur.queued[a..] == q[a..b];
    ReversedSplit(q[a..], b - a);
    assert q[a..][b - a..] == q[b..] && q[a..][..b - a] == q[a..b];
  }

  /** One more batch moves the next `min(BatchSize, remaining)` shards, and the job's flag stays as it
      was because the running list is not empty afterwards. */
  lemma DrainStep(m: Marker, moved: nat)
    requires moved < |m.queued|
    ensures var k := BatchCount(Drained(m, moved));
      && moved + k == Min(moved + BatchSize, |m.queued|)
      && MoveBatch(Drained(m, moved)) == Drained(m, moved + k)
  {
    var cur := Drained(m, moved);
    var k := BatchCount(cur);
    DrainBatch(m, moved);
    var a := |m.queued| - moved - k;
    assert cur.queued[..a] == m.queued[..a];
    var next := cur.(queued := m.queued[..a], running := cur.running + Batch(cur));
    assert next.running != [];
    assert AfterPut(next) == next;
  }

  /** The workers deferred by one more batch extend those deferred so far. */
  lemma DrainStepTasks(marker: Key, query: Query, m: Marker, moved: nat)
    requires moved < |m.queued|
    ensures var k := BatchCount(Drained(m, moved));
      && moved + k == Min(moved + BatchSize, |m.queued|)
      && DrainTasks(marker, query, m, moved) + ShardTasks(marker, query, Batch(Drained(m, moved)))
           == DrainTasks(marker, query, m, moved + k)
  {
    var k := BatchCount(Drained(m, moved));
    var start := |m.queued| - (moved + k);
    var before := Reversed(m.queued[|m.queued| - moved..]);
    var batch := Batch(Drained(m, moved));
    DrainBatch(m, moved);
    assert |m.queued| - moved - k == start;
    assert Reversed(m.queued[start..]) == before + batch;
    ShardTasksAppend(marker, query, before, batch);
  }

  /** The stored markers after one more batch. */
  lemma DrainStepMarkers(markers0: map<Key, Marker>, key: Key, m: Marker, moved: nat)
    requires moved < |m.queued|
    ensures var cur := Drained(m, moved);
      markers0[key := cur][key := MoveBatch(cur)] == markers0[key := Drained(m, Min(moved + BatchSize, |m.queued|))]
  {
    DrainStep(m, moved);
  }

  /** The deferred queue after one more batch. */
  lemma DrainStepDeferred(deferred0: seq<Task>, key: Key, query: Query, m: Marker, moved: nat)
    requires moved < |m.queued|
    ensures deferred0 + DrainTasks(key, query, m, moved) + ShardTasks(key, query, Batch(Drained(m, moved)))
              == deferred0 + DrainTasks(key, query, m, Min(moved + BatchSize, |m.queued|))
  {
    DrainStepTasks(key, query, m, moved);
    AppendAssociative(deferred0, DrainTasks(key, query, m, moved), ShardTasks(key, query, Batch(Drained(m, moved))));
  }

  /** Draining the whole queued list conserves the shards and keeps the job invariant. */
  lemma DrainedKeepsJob(m: Marker, shards: multiset<Shard>)
    requires JobInvariant(m, shards)
    ensures JobInvariant(Drained(m, |m.queued|), shards)
    ensures Drained(m, |m.queued|).queued == []
    ensures Drained(m, |m.queued|).running == m.running + Reversed(m.queued)
  {
    assert m.queued[..0] == [] && m.queued[0..] == m.queued;
    ReversedMultiset(m.queued);
  }

  /** Workers completing the given running shards one after another. */
  function CompleteAll(m: Marker, order: seq<Shard>): Marker
    requires multiset(order) <= multiset(m.running)
    decreases |order|
  {
    if order == [] then m
    else
      assert order[0] in multiset(order);
      var next := CompleteShard(m, order[0]);
      assert order == [order[0]] + order[1..];
      CompleteAll(next, order[1..])
  }

  /** Once nothing is queued, every running shard completing once, in any order, finishes the job:
      the running list empties, the shards are appended to the finished list in completion order,
      and the flag is set. */
  lemma {:induction false} CompleteAllFinishes(m: Marker, shards: multiset<Shard>, order: seq<Shard>)
    requires JobInvariant(m, shards) && m.queued == [] && order != []
    requires multiset(order) == multiset(m.running)
    decreases |order|
    ensures var r := CompleteAll(m, order);
      && JobInvariant(r, shards) && r.running == [] && r.isFinished
      && r.finished == m.finished + order
  {
    var first, rest := order[0], order[1..];
    var next := CompleteFirst(m, shards, order);
    if rest == [] {
      assert next.running == [] by {
        assert |next.running| == |multiset(next.running)| == 0;
      }
    } else {
      var r := CompleteAll(next, rest);
      assert JobInvariant(r, shards) && r.running == [] && r.isFinished && r.finished == next.finished + rest by {
        CompleteAllFinishes(next, shards, rest);
      }
      AppendFirst(m.finished, order);
    }
  }

  /** Completing the first shard of `order` leaves a marker for the rest of it. */
  lemma CompleteFirst(m: Marker, shards: multiset<Shard>, order: seq<Shard>) returns (next: Marker)
    requires JobInvariant(m, shards) && m.queued == [] && order != []
    requires multiset(order) == multiset(m.running)
    ensures order[0] in m.running && next == CompleteShard(m, order[0])
    ensures JobInvariant(next, shards) && next.queued == [] && next.finished == m.finished + [order[0]]
    ensures multiset(next.running) == multiset(order[1..])
    ensures CompleteAll(m, order) == CompleteAll(next, order[1..])
  {
    var first, rest := order[0], order[1..];
    assert multiset(order) == multiset{first} + multiset(rest) by {
      assert order == [first] + rest;
    }
    assert first in m.running by {
      assert first in multiset(m.running);
    }
    next := CompleteShard(m, first);
    CompleteShardKeepsJob(m, shards, first);
  }

  // ---------------------------------------------------------------------------------------------
  // The datastore and the task queue

  /** The entities the job maps over, as keys. */
  predicate InShard(k: Key, q: Query, shard: Shard) {
    InScope(k, q.kind, q.namespace) && KeyLe(shard.low, k) && KeyLt(k, shard.high)
  }

  /** The query `run_shard` builds: the query's kind and namespace, `__key__ >= low`, `__key__ < high`. */
  function Matching(keys: seq<Key>, q: Query, shard: Shard): (r: seq<Key>)
    ensures forall k :: k in r <==> k in keys && InShard(k, q, shard)
  {
    if keys == [] then []
    else
      var rest := Matching(keys[1..], q, shard);
      assert forall k :: k in keys <==> k == keys[0] || k in keys[1..];
      if InShard(keys[0], q, shard) then [keys[0]] + rest else rest
  }

  /** `query.Run()` ordered by `__key__`: the matching keys in ascending order. */
  function ShardScan(keys: seq<Key>, q: Query, shard: Shard): seq<Key> {
    Sort(Matching(keys, q, shard), KeyLt)
  }

  /** The worker visits exactly the stored entities of its half-open range, in ascending key order. */
  lemma ShardScanFacts(keys: seq<Key>, q: Query, shard: Shard)
    ensures var r := ShardScan(keys, q, shard);
      && (forall k :: k in r <==> k in keys && InShard(k, q, shard))
      && Sorted(r, KeyLt)
  {
    var m := Matching(keys, q, shard);
    KeyLtIsStrictTotalOrder();
    SortSorted(m, KeyLt);
    forall k ensures k in Sort(m, KeyLt) <==> k in m { SortMembership(m, KeyLt, k); }
  }

  /** The datastore as the mapper uses it, together with the deferred task queue: the markers by
      key, the keys of the entities being mapped, the queued tasks, and the keys the user's
      operation has been applied to, in order. */
  class Datastore {
    var markers: map<Key, Marker>
    var entities: seq<Key>
    var deferred: seq<Task>
    var applied: seq<Key>

    constructor(entities: seq<Key>)
      ensures this.markers == map[] && this.entities == entities && this.deferred == [] && this.applied == []
    {
      this.markers := map[];
      this.entities := entities;
      this.deferred := [];
      this.applied := [];
    }
  }

  // ---------------------------------------------------------------------------------------------
  // ShardedTaskMarker

  /** A marker entity held in memory: `put` saves it; the dispatch and worker steps reload it. */
  class ShardedTaskMarker {
    const identifier: string
    const namespace: string
    var query: Query
    var queued: seq<Shard>
    var running: seq<Shard>
    var finished: seq<Shard>
    var isFinished: bool

    /** `ShardedTaskMarker(identifier, query, namespace=...)`: no shards yet, not finished. */
    constructor(identifier: string, query: Query, namespace: string)
      ensures this.identifier == identifier && this.namespace == namespace
      ensures Record() == Marker(query, [], [], [], false)
    {
      this.identifier := identifier;
      this.namespace := namespace;
      this.query := query;
      this.queued := [];
      this.running := [];
      this.finished := [];
      this.isFinished := false;
    }

    /** `datastore.Get(key)` followed by `marker.__class__ = ShardedTaskMarker`. */
    constructor Load(identifier: string, namespace: string, m: Marker)
      ensures this.identifier == identifier && this.namespace == namespace
      ensures Record() == m
    {
      this.identifier := identifier;
      this.namespace := namespace;
      this.query := m.query;
      this.queued := m.queued;
      this.running := m.running;
      this.finished := m.finished;
      this.isFinished := m.isFinished;
    }

    function Key(): Key {
      MarkerKey(identifier, namespace)
    }

    /** The stored form of this marker. */
    function Record(): Marker
      reads this
    {
      Marker(query, queued, running, finished, isFinished)
    }

    /** `put`: recompute the flag while it is false, then save the marker under its key. */
    method Put(store: Datastore)
      modifies this`isFinished, store`markers
      ensures Record() == AfterPut(old(Record()))
      ensures store.markers == old(store.markers)[Key() := Record()]
    {
      if !isFinished {
        isFinished := queued == [] && running == [] && finished != [];
      }
      store.markers := store.markers[Key() := Record()];
    }

    /** `run_shard`: give up quietly when the shard is no longer running; otherwise apply the
        operation to every entity of the shard's range in key order, then move the shard to the
        finished list in a transaction. The first read raises when the marker is missing. */
    method RunShard(store: Datastore, query: Query, shard: Shard) returns (r: Result<(), MarkerError>)
      modifies store`markers, store`applied
      ensures Key() !in old(store.markers) ==> r == Failure(MarkerMissing) && unchanged(store)
      ensures Key() in old(store.markers) && shard !in old(store.markers[Key()].running) ==>
                r == Success(()) && unchanged(store)
      ensures Key() in old(store.markers) && shard in old(store.markers[Key()].running) ==>
                && r == Success(())
                && store.markers == old(store.markers)[Key() := CompleteShard(old(store.markers[Key()]), shard)]
                && store.applied == old(store.applied) + ShardScan(store.entities, query, shard)
    {
      if Key() !in store.markers {
        return Failure(MarkerMissing);
      }
      if shard !in store.markers[Key()].running {
        return Success(());
      }
      ApplyAll(store, ShardScan(store.entities, query, shard));
      CompleteShardTxn(store, shard);
      return Success(());
    }

    /** The scan loop of `run_shard`: the operation applied to each entity in turn. */
    method ApplyAll(store: Datastore, results: seq<Key>)
      modifies store`applied
      ensures store.applied == old(store.applied) + results
    {
      var i := 0;
      while i < |results|
        invariant 0 <= i <= |results|
        invariant store.applied == old(store.applied) + results[..i]
      {
        store.applied := store.applied + [results[i]];
        assert results[..i + 1] == results[..i] + [results[i]];
        i := i + 1;
      }
      assert results[..i] == results;
    }

    /** The transaction of `run_shard`: reload, remove from running, append to finished, `put`. */
    method CompleteShardTxn(store: Datastore, shard: Shard)
      requires Key() in store.markers && shard in store.markers[Key()].running
      modifies store`markers
      ensures store.markers == old(store.markers)[Key() := CompleteShard(old(store.markers[Key()]), shard)]
    {
      var marker := new ShardedTaskMarker.Load(identifier, namespace, store.markers[Key()]);
      marker.running := RemoveFirst(marker.running, shard);
      marker.finished := marker.finished + [shard];
      marker.Put(store);
    }

    /** `begin_processing`: read the marker, then run one batch transaction for every `BatchSize`
        shards that were queued at that point. Every queued shard ends up running, the last queued
        first, with one deferred worker each. The first read raises when the marker is missing. */
    method BeginProcessing(store: Datastore) returns (r: Result<(), MarkerError>)
      modifies store`markers, store`deferred
      ensures Key() !in old(store.markers) ==> r == Failure(MarkerMissing) && unchanged(store)
      ensures Key() in old(store.markers) ==>
                var m := old(store.markers[Key()]);
                && r == Success(())
                && store.markers == old(store.markers)[Key() := Drained(m, |m.queued|)]
                && store.deferred == old(store.deferred) + DrainTasks(Key(), query, m, |m.queued|)
    {
      if Key() !in store.markers {
        return Failure(MarkerMissing);
      }
      var m := store.markers[Key()];
      var n := |m.queued|;
      var i := 0;
      ghost var markers0 := store.markers;
      ghost var deferred0 := store.deferred;
      DrainedNone(Key(), query, m);
      assert markers0[Key() := m] == markers0;
      while i < n
        invariant 0 <= i <= n + 2
        invariant store.markers == markers0[Key() := Drained(m, Min(i, n))]
        invariant store.deferred == deferred0 + DrainTasks(Key(), query, m, Min(i, n))
        decreases n - i
      {
        DrainBatchTxn(store, query, m, i, markers0, deferred0);
        i := i + BatchSize;
      }
      return Success(());
    }

    /** The transaction of the batch that starts after `moved` shards have been moved. */
    method DrainBatchTxn(store: Datastore, query: Query, m: Marker, moved: nat,
                         ghost markers0: map<Key, Marker>, ghost deferred0: seq<Task>)
      requires moved < |m.queued|
      requires store.markers == markers0[Key() := Drained(m, moved)]
      requires store.deferred == deferred0 + DrainTasks(Key(), query, m, moved)
      modifies store`markers, store`deferred
      ensures store.markers == markers0[Key() := Drained(m, Min(moved + BatchSize, |m.queued|))]
      ensures store.deferred == deferred0 + DrainTasks(Key(), query, m, Min(moved + BatchSize, |m.queued|))
    {
      DrainStepMarkers(markers0, Key(), m, moved);
      DrainStepDeferred(deferred0, Key(), query, m, moved);
      BatchTxn(store, query);
    }

    /** One transaction of `begin_processing`: reload the marker, pop a batch off its queued list
        onto its running list deferring one worker per shard, and `put`; a missing marker is logged
        and the transaction does nothing. */
    method BatchTxn(store: Datastore, query: Query)
      modifies store`markers, store`deferred
      ensures Key() !in old(store.markers) ==> unchanged(store)
      ensures Key() in old(store.markers) ==>
                var m := old(store.markers[Key()]);
                && store.markers == old(store.markers)[Key() := MoveBatch(m)]
                && store.deferred == old(store.deferred) + ShardTasks(Key(), query, Batch(m))
    {
      if Key() !in store.markers {
        return;
      }
      var marker := new ShardedTaskMarker.Load(identifier, namespace, store.markers[Key()]);
      marker.PopBatch(store, query);
      marker.Put(store);
    }

    /** The inner loop of the batch: `min(BatchSize, len(queued))` times, pop the last queued shard,
        append it to the running list and defer its worker. */
    method PopBatch(store: Datastore, query: Query)
      modifies this`queued, this`running, store`deferred
      ensures var m := old(Record());
        Record() == m.(queued := m.queued[..|m.queued| - BatchCount(m)], running := m.running + Batch(m))
      ensures store.deferred == old(store.deferred) + ShardTasks(Key(), query, Batch(old(Record())))
    {
      var q, run, popped := PopShards(queued, running, BatchCount(Record()));
      queued, running := q, run;
      // The workers are deferred transactionally, so they are enqueued when the batch commits.
      store.deferred := store.deferred + ShardTasks(Key(), query, popped);
    }
  }
}
