/**
 * The Sauna object and the module-level last-status map, with their
 * methods made sequential: each is proved to follow the matching engine
 * function of engine.dfy.
 */
module Sauna {
  import opened Records
  import opened Config
  import opened Resolution
  import opened Engine

  /** The module-level dict check_results: the last record of each check, by name. */
  class ResultStore {
    var results: map<string, ServiceCheck>

    constructor ()
      ensures results == map[]
    {
      results := map[];
    }
  }

  class Sauna {
    const config: SaunaConfig
    var mustStop: bool
    var consumersQueues: seq<seq<Item>>

    constructor (config: SaunaConfig)
      ensures this.config == config
      ensures !mustStop && consumersQueues == []
    {
      this.config := config;
      mustStop := false;
      consumersQueues := [];
    }

    /** The engine state this object and the store stand for. */
    ghost function State(store: ResultStore): EngineState
      reads this, store
    {
      EngineState(mustStop, consumersQueues, store.results)
    }

    /** send_data_to_consumers: puts `d` at the end of every queue, in queue order. */
    method SendDataToConsumers(d: Item)
      modifies this
      ensures consumersQueues == Broadcast(old(consumersQueues), d)
      ensures mustStop == old(mustStop)
    {
      var i := 0;
      while i < |consumersQueues|
        invariant 0 <= i <= |consumersQueues| == |old(consumersQueues)|
        invariant forall q :: 0 <= q < i ==> consumersQueues[q] == old(consumersQueues)[q] + [d]
        invariant forall q :: i <= q < |consumersQueues| ==> consumersQueues[q] == old(consumersQueues)[q]
        invariant mustStop == old(mustStop)
      {
        consumersQueues := consumersQueues[i := consumersQueues[i] + [d]];
        i := i + 1;
      }
    }

    /** term_handler: sets the flag and broadcasts the sentinel, only the first time. */
    method TermHandler()
      modifies this
      ensures mustStop
      ensures consumersQueues == if old(mustStop) then old(consumersQueues) else Broadcast(old(consumersQueues), StopEvent)
    {
      if !mustStop {
        mustStop := true;
        SendDataToConsumers(StopEvent);
      }
    }

    /** A queued consumer's queue is created and appended to the list (launch). */
    method RegisterQueue()
      modifies this
      ensures mustStop == old(mustStop)
      ensures consumersQueues == old(consumersQueues) + [[]]
    {
      consumersQueues := consumersQueues + [[]];
    }

    /** The body of run_producer's for loop over one pass's records: enqueue, then store. */
    method DeliverPass(store: ResultStore, records: seq<ServiceCheck>)
      modifies this, store
      ensures State(store) == Publish(old(State(store)), records)
    {
      var i := 0;
      while i < |records|
        invariant 0 <= i <= |records|
        invariant State(store) == Publish(old(State(store)), records[..i])
      {
        var serviceCheck := records[i];
        assert records[..i + 1][..i] == records[..i];
        SendDataToConsumers(Data(serviceCheck));
        store.results := store.results[serviceCheck.name := serviceCheck];
        i := i + 1;
      }
      assert records[..i] == records;
    }

    /**
     * run_producer, for at most maxPasses passes: each pass resolves the
     * checks again, runs them (observe(k)(i) is what check i gave in pass k)
     * and delivers their records; during the wait that follows pass k,
     * term_handler runs when signalled(k); the loop ends when the wait finds
     * the flag set.
     */
    method RunProducer(store: ResultStore, registry: Registry, fqdn: nat -> string,
                       observe: nat -> nat -> Observation, signalled: nat -> bool, maxPasses: nat)
      returns (exit: ProducerExit)
      modifies this, store
      ensures ProducerRun(exit, State(store))
           == Produce(old(State(store)), config, registry, fqdn, observe, signalled, 0, maxPasses)
    {
      var k := 0;
      while k < maxPasses
        invariant 0 <= k <= maxPasses
        invariant k > 0 ==> Resolve(config.plugins, registry).Ok?
        invariant Produce(State(store), config, registry, fqdn, observe, signalled, k, maxPasses)
               == Produce(old(State(store)), config, registry, fqdn, observe, signalled, 0, maxPasses)
        invariant !mustStop || k == 0
        decreases maxPasses - k
      {
        ghost var before := State(store);
        var resolved := GetAllActiveChecks(config.plugins, registry);
        if resolved.Err? {
          return Crashed(resolved.error, k);
        }
        var records := LaunchAllChecks(resolved.value, Hostname(config, fqdn(k)), observe(k));
        DeliverPass(store, records);
        if signalled(k) {
          TermHandler();
        }
        assert State(store) == Pass(before, config, fqdn, resolved.value, observe, signalled, k);
        k := k + 1;
        if mustStop {
          return Stopped(k);
        }
      }
      return StillRunning(k);
    }

    /**
     * launch without threads, as LaunchRun says: one queue per queued
     * consumer until a constructor raises DependencyError; without such a
     * failure the producer runs and term_handler follows once it has ended,
     * after one launch exits and the producer runs on with no signal reaching
     * it. On a fresh object, every queue then holds exactly one sentinel if
     * term_handler ran and none otherwise.
     */
    method Launch(store: ResultStore, consumers: seq<Consumer>, registry: Registry, fqdn: nat -> string,
                  observe: nat -> nat -> Observation, signalled: nat -> bool, maxPasses: nat)
      returns (failed: bool, exit: ProducerExit)
      modifies this, store
      ensures LaunchEnd(failed, ProducerRun(exit, State(store)))
           == LaunchRun(old(State(store)), consumers, config, registry, fqdn, observe, signalled, maxPasses)
      ensures failed <==> exists i :: 0 <= i < |consumers| && consumers[i].FailsWithDependencyError?
      ensures var constructed := consumers[..FirstFailure(consumers)];
        |consumersQueues| == |old(consumersQueues)| + |set i | 0 <= i < |constructed| && constructed[i].Queued?|
      ensures !failed && !exit.StillRunning? ==> mustStop
      ensures failed ==> mustStop == old(mustStop)
      ensures !old(mustStop) && old(consumersQueues) == [] ==>
        forall q :: 0 <= q < |consumersQueues| ==>
          Sentinels(consumersQueues[q]) == if !failed && !exit.StillRunning? then 1 else 0
    {
      ghost var start := State(store);
      var i := 0;
      while i < |consumers| && !consumers[i].FailsWithDependencyError?
        invariant 0 <= i <= |consumers|
        invariant forall j :: 0 <= j < i ==> !consumers[j].FailsWithDependencyError?
        invariant State(store) == RegisterQueued(start, consumers[..i])
      {
        assert consumers[..i + 1][..i] == consumers[..i];
        if consumers[i].Queued? {
          RegisterQueue();
        }
        i := i + 1;
      }
      assert i == FirstFailure(consumers);
      failed := i < |consumers|;
      if failed {
        exit := RunProducer(store, registry, fqdn, observe, NoSignal, maxPasses);
      } else {
        exit := RunProducer(store, registry, fqdn, observe, signalled, maxPasses);
        if !exit.StillRunning? {
          TermHandler();
        }
      }
      LaunchOutcome(start, consumers, config, registry, fqdn, observe, signalled, maxPasses);
    }
  }
}
