/** Concrete runs of the producer and of launch over small configurations. */
module Scenarios {
  import opened Wrappers
  import opened Records
  import opened Config
  import opened Resolution
  import opened Engine

  const DISK := PluginClass(None, map["used_percent" := Callable, "inodes" := Callable])

  /** Every run of every check reports (CRITICAL, "92% used"). */
  function CriticalDiskRuns(pass: nat): nat -> Observation
  {
    _ => Observation(1700000000, Returned(2, "92% used"))
  }

  /**
   * One check named "disk_root" that reports (CRITICAL, "92% used"), one
   * queue: after one pass the store holds that record under "disk_root" and
   * the queue holds exactly that record, with no sentinel.
   */
  lemma CriticalDiskPass(fqdn: nat -> string)
    ensures var config := SaunaConfig(None, None, [PluginEntry("Disk", [CheckEntry("used_percent", Some("disk_root"))])]);
      var r := Produce(EngineState(false, [[]], map[]), config, map["Disk" := DISK], fqdn, CriticalDiskRuns, _ => false, 0, 1);
      var expected := ServiceCheck(1700000000, fqdn(0), "disk_root", 2, "92% used");
      && r.exit == StillRunning(1)
      && r.state.results == map["disk_root" := expected]
      && r.state.queues == [[Data(expected)]]
  {
    var config := SaunaConfig(None, None, [PluginEntry("Disk", [CheckEntry("used_percent", Some("disk_root"))])]);
    var registry := map["Disk" := DISK];
    var entries := config.plugins[0].checks;
    var checks := [Check("disk_root", "Disk", "used_percent")];
    assert MakeCheck("Disk", entries[0]) == checks[0];
    assert [] + [checks[0]] == checks;
    assert PluginChecks("Disk", DISK, entries[1..], checks) == Ok(checks);
    assert PluginChecks("Disk", DISK, entries, []) == Ok(checks);
    assert ResolveFrom(config.plugins[1..], registry, checks, []) == Ok(checks);
    assert Resolve(config.plugins, registry) == Ok(checks);
    var records := LaunchAllChecks(checks, fqdn(0), CriticalDiskRuns(0));
    var expected := ServiceCheck(1700000000, fqdn(0), "disk_root", 2, "92% used");
    assert records == [expected];
    var s := EngineState(false, [[]], map[]);
    assert records[..0] == [];
    assert Publish(s, records) == Deliver(s, expected);
    assert Broadcast([[]], Data(expected))[0] == [] + [Data(expected)] == [Data(expected)];
    assert Broadcast([[]], Data(expected)) == [[Data(expected)]];
    assert map[]["disk_root" := expected] == map["disk_root" := expected];
    var next := Deliver(s, expected);
    assert next == EngineState(false, [[Data(expected)]], map["disk_root" := expected]);
    assert AfterWait(Publish(s, records), false) == next;
    assert Hostname(config, fqdn(0)) == fqdn(0);
    assert Produce(s, config, registry, fqdn, CriticalDiskRuns, _ => false, 0, 1) == ProducerRun(StillRunning(1), next);
  }

  const TWO_CHECKS := SaunaConfig(Some("node-1"), None,
    [PluginEntry("Disk", [CheckEntry("used_percent", Some("disk_root")), CheckEntry("inodes", None)])])

  /** The first check reports OK; the second raises. */
  function OneFailingRuns(pass: nat): nat -> Observation
  {
    i => if i == 0 then Observation(10, Returned(0, "ok")) else Observation(11, Raised("division by zero"))
  }

  /** The unnamed "inodes" check of plugin Disk gets the derived name "disk_inodes". */
  lemma InodesCheck()
    ensures MakeCheck("Disk", CheckEntry("inodes", None)) == Check("disk_inodes", "Disk", "inodes")
  {
    assert "Disk" + "_" + "inodes" == "Disk_inodes";
  }

  /** Plugin Disk's two check entries resolve, in order, to both of its checks. */
  lemma TwoChecksOfDisk()
    ensures PluginChecks("Disk", DISK, TWO_CHECKS.plugins[0].checks, [])
         == Ok([Check("disk_root", "Disk", "used_percent"), Check("disk_inodes", "Disk", "inodes")])
  {
    var entries := TWO_CHECKS.plugins[0].checks;
    var first := Check("disk_root", "Disk", "used_percent");
    var second := Check("disk_inodes", "Disk", "inodes");
    InodesCheck();
    assert MakeCheck("Disk", entries[0]) == first;
    assert [] + [first] == [first] && [first] + [second] == [first, second];
    assert entries[1..][0] == entries[1] && entries[1..][1..] == [];
    assert PluginChecks("Disk", DISK, entries[1..], [first]) == Ok([first, second]);
  }

  /** The explicit name is kept; the unnamed check gets "disk_inodes". */
  lemma TwoChecksResolve()
    ensures Resolve(TWO_CHECKS.plugins, map["Disk" := DISK])
         == Ok([Check("disk_root", "Disk", "used_percent"), Check("disk_inodes", "Disk", "inodes")])
  {
    var checks := [Check("disk_root", "Disk", "used_percent"), Check("disk_inodes", "Disk", "inodes")];
    TwoChecksOfDisk();
    assert ResolveFrom(TWO_CHECKS.plugins[1..], map["Disk" := DISK], checks, []) == Ok(checks);
  }

  /**
   * Two checks, the second raising: one pass stores exactly two records, the
   * failing one with status UNKNOWN and the error text as its output; a stop
   * during the wait ends the loop after that pass.
   */
  lemma FailingCheckPass(fqdn: nat -> string)
    ensures var r := Produce(EngineState(false, [], map[]), TWO_CHECKS, map["Disk" := DISK], fqdn, OneFailingRuns, _ => true, 0, 5);
      && r.exit == Stopped(1)
      && r.state.results.Keys == {"disk_root", "disk_inodes"}
      && r.state.results["disk_inodes"] == ServiceCheck(11, "node-1", "disk_inodes", UNKNOWN, "division by zero")
      && r.state.results["disk_root"].status == 0
  {
    TwoChecksResolve();
    var checks := [Check("disk_root", "Disk", "used_percent"), Check("disk_inodes", "Disk", "inodes")];
    var records := LaunchAllChecks(checks, "node-1", OneFailingRuns(0));
    var ok := ServiceCheck(10, "node-1", "disk_root", 0, "ok");
    var failed := ServiceCheck(11, "node-1", "disk_inodes", UNKNOWN, "division by zero");
    assert records == [ok, failed];
    var s := EngineState(false, [], map[]);
    assert records[..1] == [ok] && records[..1][..0] == [];
    assert Publish(s, records[..1]) == Deliver(s, ok);
    var published := Deliver(Deliver(s, ok), failed);
    assert Publish(s, records) == published;
    assert published.results == map["disk_root" := ok, "disk_inodes" := failed];
  }

  /** A configuration naming a plugin the registry does not have. */
  const UNKNOWN_PLUGIN := SaunaConfig(None, None, [PluginEntry("Nope", [])])

  /**
   * An unknown plugin and a second consumer whose constructor raises
   * DependencyError: launch exits after registering the first consumer's
   * queue, the producer crashes in its first pass, and since term_handler
   * never runs the flag stays clear and the queue gets no sentinel.
   */
  lemma UnknownPluginConsumerFails(fqdn: nat -> string, signalled: nat -> bool)
    ensures LaunchRun(EngineState(false, [], map[]), [Queued, FailsWithDependencyError], UNKNOWN_PLUGIN, map[],
                      fqdn, CriticalDiskRuns, signalled, 3)
         == LaunchEnd(true, ProducerRun(Crashed(UnknownPlugin("Nope"), 0), EngineState(false, [[]], map[])))
  {
    var cs := [Queued, FailsWithDependencyError];
    assert Resolve(UNKNOWN_PLUGIN.plugins, map[]) == Err(UnknownPlugin("Nope"));
    assert FirstFailure(cs[1..]) == 0;
    assert cs[..1][..0] == [];
    assert RegisterQueued(EngineState(false, [], map[]), cs[..1]) == EngineState(false, [[]], map[]);
  }

  /**
   * The same unknown plugin with consumers that all construct: the producer
   * crashes in its first pass, then term_handler sets the flag and puts one
   * sentinel on the queue.
   */
  lemma UnknownPluginConsumersRun(fqdn: nat -> string, signalled: nat -> bool)
    ensures LaunchRun(EngineState(false, [], map[]), [Queued, Unqueued], UNKNOWN_PLUGIN, map[],
                      fqdn, CriticalDiskRuns, signalled, 3)
         == LaunchEnd(false, ProducerRun(Crashed(UnknownPlugin("Nope"), 0), EngineState(true, [[StopEvent]], map[])))
  {
    var cs := [Queued, Unqueued];
    assert Resolve(UNKNOWN_PLUGIN.plugins, map[]) == Err(UnknownPlugin("Nope"));
    assert FirstFailure(cs[2..]) == 0;
    assert cs[..2] == cs && cs[..1][..0] == [];
    assert RegisterQueued(EngineState(false, [], map[]), cs) == EngineState(false, [[]], map[]);
    assert Broadcast([[]], StopEvent)[0] == [] + [StopEvent] == [StopEvent];
    assert Broadcast([[]], StopEvent) == [[StopEvent]];
  }
}
