/**
 * The engine's shared state and its sequential transitions, as values: the
 * stop flag, the consumer queues and the last-status map. The class in
 * sauna.dfy is proved to follow these functions.
 */
module Engine {
  import opened Records
  import opened Config
  import opened Resolution

  /** must_stop, the consumer queues (everything ever put on each), and check_results. */
  datatype EngineState = EngineState(mustStop: bool, queues: seq<seq<Item>>, results: map<string, ServiceCheck>)

  /** Fan-out: `d` at the end of every queue. */
  function Broadcast(queues: seq<seq<Item>>, d: Item): (r: seq<seq<Item>>)
    ensures |r| == |queues|
    ensures forall q :: 0 <= q < |queues| ==> r[q] == queues[q] + [d]
  {
    seq(|queues|, q requires 0 <= q < |queues| => queues[q] + [d])
  }

  /** term_handler: the first call sets the flag and puts the sentinel on every queue. */
  function Terminate(s: EngineState): (r: EngineState)
    ensures r.mustStop && r.results == s.results && |r.queues| == |s.queues|
    ensures s.mustStop ==> r == s
    ensures !s.mustStop ==> forall q :: 0 <= q < |s.queues| ==> r.queues[q] == s.queues[q] + [StopEvent]
  {
    if s.mustStop then s
    else s.(mustStop := true, queues := Broadcast(s.queues, StopEvent))
  }

  /** A queued consumer's new, empty queue joins the list. */
  function Register(s: EngineState): (r: EngineState)
    ensures r.mustStop == s.mustStop && r.results == s.results
    ensures |r.queues| == |s.queues| + 1 && r.queues[..|s.queues|] == s.queues && r.queues[|s.queues|] == []
  {
    s.(queues := s.queues + [[]])
  }

  /** One record of a pass: first put on every queue, then stored under its name. */
  function Deliver(s: EngineState, record: ServiceCheck): (r: EngineState)
    ensures r.mustStop == s.mustStop && |r.queues| == |s.queues|
    ensures forall q :: 0 <= q < |s.queues| ==> r.queues[q] == s.queues[q] + [Data(record)]
    ensures r.results.Keys == s.results.Keys + {record.name} && r.results[record.name] == record
    ensures forall n :: n in s.results && n != record.name ==> r.results[n] == s.results[n]
  {
    s.(queues := Broadcast(s.queues, Data(record)), results := s.results[record.name := record])
  }

  /** The records of one pass, delivered in order. */
  function Publish(s: EngineState, records: seq<ServiceCheck>): (r: EngineState)
    ensures r.mustStop == s.mustStop && |r.queues| == |s.queues|
    ensures s.results.Keys <= r.results.Keys
    decreases |records|
  {
    if records == [] then s
    else Deliver(Publish(s, records[..|records| - 1]), records[|records| - 1])
  }

  /** The queue items a sequence of records becomes. */
  function DataItems(records: seq<ServiceCheck>): (r: seq<Item>)
    ensures |r| == |records|
    decreases |records|
  {
    if records == [] then []
    else DataItems(records[..|records| - 1]) + [Data(records[|records| - 1])]
  }

  /** How many sentinels a queue holds. */
  function Sentinels(q: seq<Item>): nat
    decreases |q|
  {
    if q == [] then 0
    else Sentinels(q[..|q| - 1]) + (if q[|q| - 1].StopEvent? then 1 else 0)
  }

  // ---- Stopping ----

  /** Calling term_handler again changes nothing: stopping is idempotent. */
  lemma TerminateIdempotent(s: EngineState)
    ensures Terminate(Terminate(s)) == Terminate(s)
    ensures Terminate(s).mustStop
    ensures Terminate(s).results == s.results
    ensures s.mustStop ==> Terminate(s) == s
  {
  }

  lemma {:induction false} SentinelsOfDataItems(records: seq<ServiceCheck>)
    ensures Sentinels(DataItems(records)) == 0
    decreases |records|
  {
    if records != [] {
      var init := records[..|records| - 1];
      SentinelsOfDataItems(init);
      assert DataItems(records)[..|records| - 1] == DataItems(init);
    }
  }

  lemma {:induction false} SentinelsAppend(a: seq<Item>, b: seq<Item>)
    ensures Sentinels(a + b) == Sentinels(a) + Sentinels(b)
    decreases |b|
  {
    if b != [] {
      var init := b[..|b| - 1];
      assert (a + b)[..|a + b| - 1] == a + init;
      SentinelsAppend(a, init);
    } else {
      assert a + b == a;
    }
  }

  /**
   * The first term_handler call adds exactly one sentinel to every queue and
   * keeps what each queue held before it; a later call adds none.
   */
  lemma TerminateSentinels(s: EngineState, q: nat)
    requires q < |s.queues|
    ensures |Terminate(s).queues| == |s.queues|
    ensures s.queues[q] <= Terminate(s).queues[q]
    ensures Sentinels(Terminate(s).queues[q]) == Sentinels(s.queues[q]) + (if s.mustStop then 0 else 1)
  {
    if !s.mustStop {
      SentinelsAppend(s.queues[q], [StopEvent]);
      assert Sentinels([StopEvent]) == 1 by { assert [StopEvent][..0] == []; }
    }
  }

  /** Each queue holds one sentinel if the flag is set and none otherwise. */
  ghost predicate SentinelsMatchFlag(s: EngineState)
  {
    forall q :: 0 <= q < |s.queues| ==> Sentinels(s.queues[q]) == (if s.mustStop then 1 else 0)
  }

  lemma TerminateKeepsSentinelsMatchFlag(s: EngineState)
    requires SentinelsMatchFlag(s)
    ensures SentinelsMatchFlag(Terminate(s))
  {
    forall q | 0 <= q < |s.queues|
      ensures Sentinels(Terminate(s).queues[q]) == 1
    {
      TerminateSentinels(s, q);
    }
  }

  lemma RegisterKeepsSentinelsMatchFlag(s: EngineState)
    requires SentinelsMatchFlag(s) && !s.mustStop
    ensures SentinelsMatchFlag(Register(s))
  {
    var r := Register(s);
    forall q | 0 <= q < |r.queues|
      ensures Sentinels(r.queues[q]) == 0
    {
      if q < |s.queues| {
        assert r.queues[q] == s.queues[q];
      }
    }
  }

  // ---- One pass ----

  /**
   * After a pass every queue has grown by exactly the pass's records, in
   * order, the flag is as it was and no queue was added or removed.
   */
  lemma {:induction false} PublishQueues(s: EngineState, records: seq<ServiceCheck>)
    ensures Publish(s, records).mustStop == s.mustStop
    ensures |Publish(s, records).queues| == |s.queues|
    ensures forall q :: 0 <= q < |s.queues| ==> Publish(s, records).queues[q] == s.queues[q] + DataItems(records)
    decreases |records|
  {
    if records != [] {
      var init := records[..|records| - 1];
      PublishQueues(s, init);
      forall q | 0 <= q < |s.queues|
        ensures Publish(s, records).queues[q] == s.queues[q] + DataItems(records)
      {
        assert s.queues[q] + DataItems(init) + [Data(records[|records| - 1])] == s.queues[q] + DataItems(records);
      }
    }
  }

  lemma {:induction false} DataItemsAt(records: seq<ServiceCheck>, i: nat)
    requires i < |records|
    ensures DataItems(records)[i] == Data(records[i])
    decreases |records|
  {
    if i < |records| - 1 {
      var init := records[..|records| - 1];
      DataItemsAt(init, i);
    }
  }

  /** A pass adds no sentinel, so it keeps each queue's sentinel count. */
  lemma PublishKeepsSentinelsMatchFlag(s: EngineState, records: seq<ServiceCheck>)
    requires SentinelsMatchFlag(s)
    ensures SentinelsMatchFlag(Publish(s, records))
  {
    PublishQueues(s, records);
    forall q | 0 <= q < |s.queues|
      ensures Sentinels(Publish(s, records).queues[q]) == Sentinels(s.queues[q])
    {
      SentinelsAppend(s.queues[q], DataItems(records));
      SentinelsOfDataItems(records);
    }
  }

  /**
   * After a pass, the stored record for the name of records[j] is records[j]
   * when no later record of the pass has that name: the last one wins.
   */
  lemma {:induction false} PublishStoresLast(s: EngineState, records: seq<ServiceCheck>, j: nat)
    requires j < |records|
    requires forall i :: j < i < |records| ==> records[i].name != records[j].name
    ensures records[j].name in Publish(s, records).results
    ensures Publish(s, records).results[records[j].name] == records[j]
    decreases |records|
  {
    if j < |records| - 1 {
      var init := records[..|records| - 1];
      PublishStoresLast(s, init, j);
    }
  }

  /** Names the pass did not produce keep their stored record, or stay absent. */
  lemma {:induction false} PublishKeepsOthers(s: EngineState, records: seq<ServiceCheck>, name: string)
    requires forall i :: 0 <= i < |records| ==> records[i].name != name
    ensures name in Publish(s, records).results <==> name in s.results
    ensures name in s.results ==> Publish(s, records).results[name] == s.results[name]
    decreases |records|
  {
    if records != [] {
      var init := records[..|records| - 1];
      PublishKeepsOthers(s, init, name);
    }
  }

  /** After a pass the stored names are the earlier ones plus those of the pass. */
  lemma {:induction false} PublishKeys(s: EngineState, records: seq<ServiceCheck>)
    ensures Publish(s, records).results.Keys == s.results.Keys + set i | 0 <= i < |records| :: records[i].name
    decreases |records|
  {
    if records != [] {
      PublishKeys(s, records[..|records| - 1]);
      NamesSnoc(records);
    }
  }

  /** The names of a nonempty sequence of records: those of all but the last, and the last one's. */
  lemma NamesSnoc(records: seq<ServiceCheck>)
    requires records != []
    ensures var init := records[..|records| - 1];
      (set i | 0 <= i < |records| :: records[i].name)
        == (set i | 0 <= i < |init| :: init[i].name) + {records[|records| - 1].name}
  {
    var init := records[..|records| - 1];
    var names := set i | 0 <= i < |records| :: records[i].name;
    var initNames := set i | 0 <= i < |init| :: init[i].name;
    forall n | n in names ensures n in initNames + {records[|records| - 1].name} {
      var i :| 0 <= i < |records| && records[i].name == n;
      if i < |init| { assert init[i] == records[i]; }
    }
    forall n | n in initNames ensures n in names {
      var i :| 0 <= i < |init| && init[i].name == n;
      assert records[i] == init[i];
    }
  }

  // ---- Traces of engine events ----

  datatype Event = Signal | NewQueue | Produced(record: ServiceCheck)

  function Apply(s: EngineState, e: Event): EngineState
  {
    match e
    case Signal => Terminate(s)
    case NewQueue => Register(s)
    case Produced(record) => Deliver(s, record)
  }

  function ApplyAll(s: EngineState, events: seq<Event>): EngineState
    decreases |events|
  {
    if events == [] then s else ApplyAll(Apply(s, events[0]), events[1..])
  }

  /**
   * must_stop is one-way: after any sequence of engine events it is set
   * exactly when it was set before or some event was a signal.
   */
  lemma {:induction false} FlagMonotonic(s: EngineState, events: seq<Event>)
    ensures ApplyAll(s, events).mustStop <==> s.mustStop || Signal in events
    decreases |events|
  {
    if events != [] {
      FlagMonotonic(Apply(s, events[0]), events[1..]);
      assert events == [events[0]] + events[1..];
    }
  }

  // ---- The producer loop ----

  /** How the producer loop ended after `passes` passes. */
  datatype ProducerExit =
    | Stopped(passes: nat)                          // the wait reported the flag set
    | Crashed(error: ResolveError, passes: nat)     // resolution failed; the thread ends
    | StillRunning(passes: nat)                     // the given number of passes ran without a stop

  datatype ProducerRun = ProducerRun(exit: ProducerExit, state: EngineState)

  /** The wait after pass k: term_handler runs during it when signalled(k). */
  function AfterWait(s: EngineState, signal: bool): (r: EngineState)
    ensures r.mustStop == (s.mustStop || signal) && |r.queues| == |s.queues| && r.results == s.results
    ensures !signal ==> r == s
  {
    if signal then Terminate(s) else s
  }

  /** Pass k of run_producer over the resolved checks: run them, deliver their records, then wait. */
  function Pass(s: EngineState, config: SaunaConfig, fqdn: nat -> string, checks: seq<Check>,
                observe: nat -> nat -> Observation, signalled: nat -> bool, k: nat): (r: EngineState)
    ensures r.mustStop == (s.mustStop || signalled(k)) && |r.queues| == |s.queues|
  {
    AfterWait(Publish(s, LaunchAllChecks(checks, Hostname(config, fqdn(k)), observe(k))), signalled(k))
  }

  /**
   * run_producer from pass k on, for at most maxPasses passes in all:
   * resolve, run and deliver every check, wait, and leave the loop when the
   * wait finds the flag set. observe(k)(i) is what check i gave in pass k.
   */
  function Produce(s: EngineState, config: SaunaConfig, registry: Registry, fqdn: nat -> string,
                   observe: nat -> nat -> Observation, signalled: nat -> bool, k: nat, maxPasses: nat): (r: ProducerRun)
    ensures k <= r.exit.passes <= (if k < maxPasses then maxPasses else k)
    ensures r.exit.Crashed? ==> r.state == s && r.exit.passes == k
    decreases maxPasses - k
  {
    if k >= maxPasses then ProducerRun(StillRunning(k), s)
    else
      match Resolve(config.plugins, registry)
      case Err(e) => ProducerRun(Crashed(e, k), s)
      case Ok(checks) =>
        var next := Pass(s, config, fqdn, checks, observe, signalled, k);
        if next.mustStop then ProducerRun(Stopped(k + 1), next)
        else Produce(next, config, registry, fqdn, observe, signalled, k + 1, maxPasses)
  }

  /**
   * The loop never clears the flag and keeps the number of queues; it leaves
   * through Stopped only with the flag set, runs out of passes only with it
   * clear, and crashes, changing nothing, exactly when resolution fails.
   */
  lemma {:induction false} ProduceExit(s: EngineState, config: SaunaConfig, registry: Registry, fqdn: nat -> string,
                                       observe: nat -> nat -> Observation, signalled: nat -> bool, k: nat, maxPasses: nat)
    ensures var r := Produce(s, config, registry, fqdn, observe, signalled, k, maxPasses);
      && (s.mustStop ==> r.state.mustStop)
      && |r.state.queues| == |s.queues|
      && (r.exit.Stopped? ==> r.state.mustStop)
      && (r.exit.StillRunning? && k < maxPasses ==> !r.state.mustStop)
      && (r.exit.Crashed? <==> k < maxPasses && Resolve(config.plugins, registry).Err?)
      && (r.exit.Crashed? ==> r.state == s && r.exit.error == Resolve(config.plugins, registry).error)
    decreases maxPasses - k
  {
    if k < maxPasses && Resolve(config.plugins, registry).Ok? {
      var next := Pass(s, config, fqdn, Resolve(config.plugins, registry).value, observe, signalled, k);
      if !next.mustStop {
        ProduceExit(next, config, registry, fqdn, observe, signalled, k + 1, maxPasses);
      }
    }
  }

  /**
   * The loop leaves after the first pass whose wait saw a signal (or after
   * the first pass if the flag was already set), so no pass begins once the
   * flag is set.
   */
  lemma {:induction false} ProducePasses(s: EngineState, config: SaunaConfig, registry: Registry, fqdn: nat -> string,
                                         observe: nat -> nat -> Observation, signalled: nat -> bool, k: nat, maxPasses: nat)
    ensures var r := Produce(s, config, registry, fqdn, observe, signalled, k, maxPasses);
      r.exit.Stopped? ==>
        && k < r.exit.passes <= maxPasses
        && (signalled(r.exit.passes - 1) || (s.mustStop && r.exit.passes == k + 1))
        && (forall j :: k <= j < r.exit.passes - 1 ==> !signalled(j))
        && (s.mustStop ==> r.exit.passes == k + 1)
    decreases maxPasses - k
  {
    var r := Produce(s, config, registry, fqdn, observe, signalled, k, maxPasses);
    if k < maxPasses && Resolve(config.plugins, registry).Ok? {
      var next := Pass(s, config, fqdn, Resolve(config.plugins, registry).value, observe, signalled, k);
      if !next.mustStop {
        assert r == Produce(next, config, registry, fqdn, observe, signalled, k + 1, maxPasses);
        ProducePasses(next, config, registry, fqdn, observe, signalled, k + 1, maxPasses);
      }
    }
  }

  /** Running out of passes means every pass ran and no wait saw a signal. */
  lemma {:induction false} ProduceRunsOut(s: EngineState, config: SaunaConfig, registry: Registry, fqdn: nat -> string,
                                          observe: nat -> nat -> Observation, signalled: nat -> bool, k: nat, maxPasses: nat)
    ensures var r := Produce(s, config, registry, fqdn, observe, signalled, k, maxPasses);
      r.exit.StillRunning? ==>
        && r.exit.passes == (if k < maxPasses then maxPasses else k)
        && (forall j :: k <= j < maxPasses ==> !signalled(j))
    decreases maxPasses - k
  {
    var r := Produce(s, config, registry, fqdn, observe, signalled, k, maxPasses);
    if k < maxPasses && Resolve(config.plugins, registry).Ok? {
      var next := Pass(s, config, fqdn, Resolve(config.plugins, registry).value, observe, signalled, k);
      if !next.mustStop {
        assert r == Produce(next, config, registry, fqdn, observe, signalled, k + 1, maxPasses);
        ProduceRunsOut(next, config, registry, fqdn, observe, signalled, k + 1, maxPasses);
      }
    }
  }

  /** The producer loop keeps "one sentinel per queue once stopped, none before". */
  lemma {:induction false} ProduceKeepsSentinelsMatchFlag(s: EngineState, config: SaunaConfig, registry: Registry, fqdn: nat -> string,
                                                          observe: nat -> nat -> Observation, signalled: nat -> bool, k: nat, maxPasses: nat)
    requires SentinelsMatchFlag(s)
    ensures SentinelsMatchFlag(Produce(s, config, registry, fqdn, observe, signalled, k, maxPasses).state)
    decreases maxPasses - k
  {
    if k < maxPasses && Resolve(config.plugins, registry).Ok? {
      var checks := Resolve(config.plugins, registry).value;
      var published := Publish(s, LaunchAllChecks(checks, Hostname(config, fqdn(k)), observe(k)));
      PublishKeepsSentinelsMatchFlag(s, LaunchAllChecks(checks, Hostname(config, fqdn(k)), observe(k)));
      var next := Pass(s, config, fqdn, checks, observe, signalled, k);
      assert next == AfterWait(published, signalled(k));
      if signalled(k) {
        TerminateKeepsSentinelsMatchFlag(published);
      }
      if !next.mustStop {
        ProduceKeepsSentinelsMatchFlag(next, config, registry, fqdn, observe, signalled, k + 1, maxPasses);
      }
    }
  }

  // ---- Launch ----

  /** What constructing one configured consumer gives launch. */
  datatype Consumer =
    | Queued                     // a QueuedConsumer: it gets a queue of its own
    | Unqueued                   // any other consumer: it runs without a queue
    | FailsWithDependencyError   // its constructor raises DependencyError

  /** The index of the first consumer whose constructor raises DependencyError, or |cs| if none does. */
  function FirstFailure(cs: seq<Consumer>): (f: nat)
    ensures f <= |cs|
    ensures forall j :: 0 <= j < f ==> !cs[j].FailsWithDependencyError?
    ensures f < |cs| ==> cs[f].FailsWithDependencyError?
  {
    if cs == [] || cs[0].FailsWithDependencyError? then 0 else 1 + FirstFailure(cs[1..])
  }

  /** launch's registration loop: one new, empty queue per queued consumer, in order. */
  function RegisterQueued(s: EngineState, cs: seq<Consumer>): (r: EngineState)
    ensures r.mustStop == s.mustStop && r.results == s.results
    ensures s.queues <= r.queues
    ensures forall q :: |s.queues| <= q < |r.queues| ==> r.queues[q] == []
    ensures |r.queues| == |s.queues| + |set i | 0 <= i < |cs| && cs[i].Queued?|
    decreases |cs|
  {
    if cs == [] then s
    else
      var n := |cs| - 1;
      var init := RegisterQueued(s, cs[..n]);
      QueuedCount(cs);
      if cs[n].Queued? then Register(init) else init
  }

  /** The queued consumers among the first n + 1 are those among the first n, and the last if it is queued. */
  lemma QueuedCount(cs: seq<Consumer>)
    requires cs != []
    ensures var init := cs[..|cs| - 1];
      |set i | 0 <= i < |cs| && cs[i].Queued?|
        == |set i | 0 <= i < |init| && init[i].Queued?| + (if cs[|cs| - 1].Queued? then 1 else 0)
  {
    var n := |cs| - 1;
    var before := set i | 0 <= i < n && cs[..n][i].Queued?;
    assert (set i | 0 <= i < |cs| && cs[i].Queued?) == before + (if cs[n].Queued? then {n} else {});
  }

  /** No signal reaches term_handler: what the waits see once launch has left before installing the handlers. */
  function NoSignal(k: nat): (b: bool)
    ensures !b
  {
    false
  }

  /** How launch ends: whether a consumer's constructor failed, and the producer's run. */
  datatype LaunchEnd = LaunchEnd(consumerFailed: bool, run: ProducerRun)

  /**
   * launch, made sequential: the queues of the consumers constructed before
   * the first DependencyError, then the producer. Without a failure the
   * producer sees the signals and term_handler runs once it has ended; after
   * a failure launch exits before installing the handlers and before
   * term_handler, and the producer thread runs on with no signal reaching it.
   */
  function LaunchRun(s: EngineState, cs: seq<Consumer>, config: SaunaConfig, registry: Registry, fqdn: nat -> string,
                     observe: nat -> nat -> Observation, signalled: nat -> bool, maxPasses: nat): LaunchEnd
  {
    var f := FirstFailure(cs);
    var registered := RegisterQueued(s, cs[..f]);
    if f < |cs| then
      LaunchEnd(true, Produce(registered, config, registry, fqdn, observe, NoSignal, 0, maxPasses))
    else
      var r := Produce(registered, config, registry, fqdn, observe, signalled, 0, maxPasses);
      if r.exit.StillRunning? then LaunchEnd(false, r) else LaunchEnd(false, ProducerRun(r.exit, Terminate(r.state)))
  }

  /** Registering queues before the stop keeps "one sentinel per queue once stopped, none before". */
  lemma RegisterQueuedKeepsSentinelsMatchFlag(s: EngineState, cs: seq<Consumer>)
    requires SentinelsMatchFlag(s) && !s.mustStop
    ensures SentinelsMatchFlag(RegisterQueued(s, cs))
  {
    var r := RegisterQueued(s, cs);
    forall q | 0 <= q < |r.queues|
      ensures Sentinels(r.queues[q]) == 0
    {
      if q < |s.queues| {
        assert r.queues[q] == s.queues[q];
      } else {
        assert r.queues[q] == [];
      }
    }
  }

  /**
   * With no signal the producer never sets the flag: it leaves the loop only
   * by crashing (changing nothing) or by running out of passes.
   */
  lemma ProduceUnsignalled(s: EngineState, config: SaunaConfig, registry: Registry, fqdn: nat -> string,
                           observe: nat -> nat -> Observation, maxPasses: nat)
    requires !s.mustStop
    ensures var r := Produce(s, config, registry, fqdn, observe, NoSignal, 0, maxPasses);
      !r.exit.Stopped? && !r.state.mustStop
  {
    ProduceExit(s, config, registry, fqdn, observe, NoSignal, 0, maxPasses);
    ProducePasses(s, config, registry, fqdn, observe, NoSignal, 0, maxPasses);
  }

  /**
   * After launch: a consumer failed exactly when one of the constructors
   * raised DependencyError, and there is one more queue per queued consumer
   * constructed before it. Without a failure, once the producer has ended
   * (stopped or crashed) the flag is set; after a failure the flag keeps its
   * value, a producer that was not stopped before never leaves through the
   * stop, and a crash leaves the registered state as it was. If no stop had
   * happened before, every queue holds exactly one sentinel when launch ran
   * term_handler and none otherwise.
   */
  lemma LaunchOutcome(s: EngineState, cs: seq<Consumer>, config: SaunaConfig, registry: Registry, fqdn: nat -> string,
                      observe: nat -> nat -> Observation, signalled: nat -> bool, maxPasses: nat)
    ensures var e := LaunchRun(s, cs, config, registry, fqdn, observe, signalled, maxPasses);
      var f := FirstFailure(cs);
      var constructed := cs[..f];
      var r := e.run;
      && (e.consumerFailed <==> exists i :: 0 <= i < |cs| && cs[i].FailsWithDependencyError?)
      && |r.state.queues| == |s.queues| + |set i | 0 <= i < |constructed| && constructed[i].Queued?|
      && (!e.consumerFailed && !r.exit.StillRunning? ==> r.state.mustStop)
      && (e.consumerFailed ==> r.state.mustStop == s.mustStop)
      && (e.consumerFailed && !s.mustStop ==> !r.exit.Stopped?)
      && (e.consumerFailed && r.exit.Crashed? ==> r.state == RegisterQueued(s, constructed))
      && (SentinelsMatchFlag(s) && !s.mustStop ==>
            forall q :: 0 <= q < |r.state.queues| ==>
              Sentinels(r.state.queues[q]) == if !e.consumerFailed && !r.exit.StillRunning? then 1 else 0)
  {
    var f := FirstFailure(cs);
    var registered := RegisterQueued(s, cs[..f]);
    if f < |cs| {
      ProduceExit(registered, config, registry, fqdn, observe, NoSignal, 0, maxPasses);
      if !s.mustStop {
        ProduceUnsignalled(registered, config, registry, fqdn, observe, maxPasses);
      }
      if SentinelsMatchFlag(s) && !s.mustStop {
        RegisterQueuedKeepsSentinelsMatchFlag(s, cs[..f]);
        ProduceKeepsSentinelsMatchFlag(registered, config, registry, fqdn, observe, NoSignal, 0, maxPasses);
      }
    } else {
      var p := Produce(registered, config, registry, fqdn, observe, signalled, 0, maxPasses);
      ProduceExit(registered, config, registry, fqdn, observe, signalled, 0, maxPasses);
      if SentinelsMatchFlag(s) && !s.mustStop {
        RegisterQueuedKeepsSentinelsMatchFlag(s, cs[..f]);
        ProduceKeepsSentinelsMatchFlag(registered, config, registry, fqdn, observe, signalled, 0, maxPasses);
        if !p.exit.StillRunning? {
          TerminateKeepsSentinelsMatchFlag(p.state);
        }
      }
    }
  }
}
