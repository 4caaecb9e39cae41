/** The mapper's entry points: `start_mapping` creates a job's marker and schedules its dispatch, and
    `is_mapper_running` reports whether a job still has work left. */
module Mapping {
  import opened Wrappers
  import opened Keys
  import opened Seqs
  import opened Sharding
  import opened TaskMarkers

  /** The shard count used when the settings name none. */
  const DefaultShardCount: nat := 32

  datatype StartError =
    | AlreadyExists                      // the `ValueError` for a duplicate identifier
    | ShardingFailed(cause: ShardError)  // an exception escaping `shard_query`

  /** `start_mapping`, one transaction: refuse an identifier whose marker exists; shard the query;
      save a marker with every shard queued (finished at once when there is none); and schedule
      `begin_processing` only when the job is not finished. Nothing is saved or scheduled when the
      transaction raises. The store's answers to the sharding queries are `answers`. */
  method StartMapping(store: Datastore, identifier: string, query: Query, shardCount: nat, answers: StoreAnswers)
    returns (r: Result<Key, StartError>)
    requires shardCount >= 1 && Consistent(query, answers)
    modifies store`markers, store`deferred
    ensures var key := MarkerKey(identifier, query.namespace);
      key in old(store.markers) ==> r == Failure(AlreadyExists) && unchanged(store)
    ensures var key := MarkerKey(identifier, query.namespace);
      var shards := ShardQuerySpec(query, answers, shardCount);
      key !in old(store.markers) && shards.Failure? ==> r == Failure(ShardingFailed(shards.error)) && unchanged(store)
    ensures var key := MarkerKey(identifier, query.namespace);
      var shards := ShardQuerySpec(query, answers, shardCount);
      key !in old(store.markers) && shards.Success? ==>
        && r == Success(key)
        && store.markers == old(store.markers)[key := Created(query, shards.value)]
        && store.deferred == old(store.deferred) + (if shards.value == [] then [] else [BeginTask(key, query)])
  {
    var key := MarkerKey(identifier, query.namespace);
    if key in store.markers {
      return Failure(AlreadyExists);
    }
    var computed := ShardQuery(query, answers, shardCount);
    if computed.Failure? {
      return Failure(ShardingFailed(computed.error));
    }
    CreateMarker(store, identifier, query, computed.value);
    return Success(key);
  }

  /** The rest of the transaction once the shards are known: a marker with every shard queued
      (finished at once when there is none) is saved, and `begin_processing` is scheduled when the
      job is not finished. */
  method CreateMarker(store: Datastore, identifier: string, query: Query, shards: seq<Shard>)
    modifies store`markers, store`deferred
    ensures var key := MarkerKey(identifier, query.namespace);
      && store.markers == old(store.markers)[key := Created(query, shards)]
      && store.deferred == old(store.deferred) + (if shards == [] then [] else [BeginTask(key, query)])
  {
    var marker := new ShardedTaskMarker(identifier, query, query.namespace);
    if shards != [] {
      QueueShards(marker, shards);
    } else {
      marker.isFinished := true;
    }
    assert marker.Record() == Created(query, shards);
    marker.Put(store);
    if !marker.isFinished {
      store.deferred := store.deferred + [BeginTask(marker.Key(), query)];
    }
  }

  /** The marker `start_mapping` saves holds each shard `shard_query` returned exactly once: the job
      invariant holds over shards without duplicates, which every later batch and completion keeps. */
  lemma CreatedJobHasDistinctShards(query: Query, answers: StoreAnswers, shardCount: nat)
    requires shardCount >= 1 && Consistent(query, answers)
    requires ShardQuerySpec(query, answers, shardCount).Success?
    ensures var shards := ShardQuerySpec(query, answers, shardCount).value;
      JobInvariant(Created(query, shards), multiset(shards)) && NoDuplicates(shards)
  {
    ShardQueryNoDuplicates(query, answers, shardCount);
  }

  /** `for shard in shards: marker["shards_queued"].append(shard)`. */
  method QueueShards(marker: ShardedTaskMarker, shards: seq<Shard>)
    modifies marker`queued
    ensures marker.queued == old(marker.queued) + shards
  {
    var i := 0;
    while i < |shards|
      invariant 0 <= i <= |shards|
      invariant marker.queued == old(marker.queued) + shards[..i]
    {
      marker.queued := marker.queued + [shards[i]];
      assert shards[..i + 1] == shards[..i] + [shards[i]];
      i := i + 1;
    }
    assert shards[..i] == shards;
  }

  /** `is_mapper_running`: the flag of the job's marker negated, and false when there is no marker. */
  function IsMapperRunning(store: Datastore, identifier: string, namespace: string): bool
    reads store
  {
    var key := MarkerKey(identifier, namespace);
    key in store.markers && !store.markers[key].isFinished
  }

  /** A job whose marker keeps the job invariant is running exactly while a shard is still queued or
      running; a job without a marker is not running. */
  lemma RunningIffWorkLeft(store: Datastore, identifier: string, namespace: string, shards: multiset<Shard>)
    requires MarkerKey(identifier, namespace) in store.markers ==>
               JobInvariant(store.markers[MarkerKey(identifier, namespace)], shards)
    ensures IsMapperRunning(store, identifier, namespace) <==>
              && MarkerKey(identifier, namespace) in store.markers
              && var m := store.markers[MarkerKey(identifier, namespace)];
              m.queued != [] || m.running != []
  {
  }
}
