/**
 * The values the producer creates: one ServiceCheck per check run, the items
 * put on consumer queues, and the construction of one pass's records
 * (launch_all_checks in sauna/__init__.py).
 */
module Records {
  /** Status code for "unknown" in the Nagios plugin status-code convention. */
  const UNKNOWN: int := 3

  /** The named tuple ServiceCheck(timestamp, hostname, name, status, output). */
  datatype ServiceCheck = ServiceCheck(timestamp: int, hostname: string, name: string, status: int, output: string)

  /**
   * What a consumer queue carries: a ServiceCheck, or the stop event object
   * itself, which the source puts on every queue as the shutdown sentinel.
   */
  datatype Item = Data(record: ServiceCheck) | StopEvent

  /** A resolved check: its name and the plugin method (plugin, check type) it calls. */
  datatype Check = Check(name: string, plugin: string, checkType: string)

  /** What running a check gave: a (status, output) pair, or an exception with its text. */
  datatype RunOutcome = Returned(status: int, output: string) | Raised(error: string)

  /** One run of a check: its outcome and the clock reading (whole seconds) taken after it. */
  datatype Observation = Observation(timestamp: int, outcome: RunOutcome)

  /** The record built for one check from one observation; an exception becomes UNKNOWN. */
  function MakeRecord(check: Check, hostname: string, obs: Observation): (r: ServiceCheck)
    ensures r.name == check.name && r.hostname == hostname && r.timestamp == obs.timestamp
    ensures obs.outcome.Raised? ==> r.status == UNKNOWN && r.output == obs.outcome.error
    ensures obs.outcome.Returned? ==> r.status == obs.outcome.status && r.output == obs.outcome.output
  {
    match obs.outcome
    case Returned(status, output) => ServiceCheck(obs.timestamp, hostname, check.name, status, output)
    case Raised(error) => ServiceCheck(obs.timestamp, hostname, check.name, UNKNOWN, error)
  }

  /**
   * The records one pass yields, in check order; observe(i) is what running
   * checks[i] gave. A check that raises never stops the pass.
   */
  function LaunchAllChecks(checks: seq<Check>, hostname: string, observe: nat -> Observation): (r: seq<ServiceCheck>)
    ensures |r| == |checks|
    ensures forall i :: 0 <= i < |checks| ==>
      && r[i].name == checks[i].name
      && r[i].hostname == hostname
      && r[i].timestamp == observe(i).timestamp
    ensures forall i :: 0 <= i < |checks| && observe(i).outcome.Raised? ==>
      r[i].status == UNKNOWN && r[i].output == observe(i).outcome.error
    ensures forall i :: 0 <= i < |checks| && observe(i).outcome.Returned? ==>
      r[i].status == observe(i).outcome.status && r[i].output == observe(i).outcome.output
  {
    var records := seq(|checks|, i requires 0 <= i < |checks| => MakeRecord(checks[i], hostname, observe(i)));
    assert forall i :: 0 <= i < |checks| ==> records[i] == MakeRecord(checks[i], hostname, observe(i));
    records
  }

  /**
   * A failing check only affects its own record: two runs of a pass that
   * differ only in what check j gave produce the same records everywhere else.
   */
  lemma FailureIsIsolated(checks: seq<Check>, hostname: string, observe: nat -> Observation, observe': nat -> Observation, j: nat)
    requires forall i :: i != j ==> observe(i) == observe'(i)
    ensures |LaunchAllChecks(checks, hostname, observe)| == |LaunchAllChecks(checks, hostname, observe')|
    ensures forall i :: 0 <= i < |checks| && i != j ==>
      LaunchAllChecks(checks, hostname, observe)[i] == LaunchAllChecks(checks, hostname, observe')[i]
  {
  }
}
