/** Finding or launching the agent service: endpoint discovery in a fixed
    order, the bounded health poll after spawning `opencode serve`, and the
    idempotent cleanup of the owned child process. Probe answers, the spawn
    and the child's reaction to termination are inputs. */
module Supervisor {
  import opened Outcomes

  const ServePort: int := 54321
  /** The local ports tried after the configured endpoint, in order. */
  const WellKnownPorts: seq<int> := [ServePort, 4096, 3000, 8080]
  const HealthAttempts: nat := 30
  /** Sleep before each health probe. */
  const PollIntervalMillis: nat := 500
  /** How long cleanup waits after a graceful termination request. */
  const GraceSeconds: nat := 5

  /** A candidate endpoint: the client built from `OPENCODE_BASE_URL`
      (`None` when unset, leaving the SDK its default), or a local port. */
  datatype Endpoint = Configured(baseUrl: Option<string>) | LocalPort(port: int)

  /** Discovery's candidates: the configured client first, then the
      well-known local ports in order. */
  function Candidates(env: Option<string>): (r: seq<Endpoint>)
    ensures |r| == 1 + |WellKnownPorts|
    ensures r[0] == Configured(env)
    ensures forall i :: 0 <= i < |WellKnownPorts| ==> r[i + 1] == LocalPort(WellKnownPorts[i])
  {
    [Configured(env)] + seq(|WellKnownPorts|, i requires 0 <= i < |WellKnownPorts| => LocalPort(WellKnownPorts[i]))
  }

  /** `find_opencode_port`: `responds(i)` says whether the i-th probe (a
      session listing against the i-th candidate) succeeded. The first
      candidate that responds is returned and no later one is probed;
      `None` when every candidate was probed and none responded. */
  method Discover(env: Option<string>, responds: nat -> bool) returns (found: Option<Endpoint>, probes: nat)
    ensures 1 <= probes <= |Candidates(env)|
    ensures forall i :: 0 <= i < probes - 1 ==> !responds(i)
    ensures found.Some? <==> responds(probes - 1)
    ensures found.Some? ==> found.value == Candidates(env)[probes - 1]
    ensures found.None? ==> probes == |Candidates(env)|
  {
    var cs := Candidates(env);
    probes := 0;
    found := None;
    while probes < |cs|
      invariant probes <= |cs|
      invariant forall i :: 0 <= i < probes ==> !responds(i)
    {
      probes := probes + 1;
      if responds(probes - 1) {
        found := Some(cs[probes - 1]);
        return;
      }
    }
  }

  /** The poll loop of `start_opencode`: up to 30 rounds of a 0.5 s sleep
      followed by a health probe, stopping at the first success.
      `responds(i)` is the answer to the i-th probe; `waitedMillis` is the
      time spent sleeping, at most the 15 s the source announces. */
  method PollHealth(responds: nat -> bool) returns (attempts: nat, healthy: bool, waitedMillis: nat)
    ensures 1 <= attempts <= HealthAttempts
    ensures waitedMillis == attempts * PollIntervalMillis <= 15_000
    ensures healthy <==> responds(attempts - 1)
    ensures forall i :: 0 <= i < attempts - 1 ==> !responds(i)
    ensures !healthy ==> attempts == HealthAttempts
  {
    attempts := 0;
    healthy := false;
    waitedMillis := 0;
    while attempts < HealthAttempts
      invariant attempts <= HealthAttempts
      invariant waitedMillis == attempts * PollIntervalMillis
      invariant forall i :: 0 <= i < attempts ==> !responds(i)
    {
      waitedMillis := waitedMillis + PollIntervalMillis;
      attempts := attempts + 1;
      if responds(attempts - 1) {
        healthy := true;
        return;
      }
    }
  }

  /** The owned child process. */
  datatype Handle = Handle(pid: int)

  /** How the child reacts to cleanup: it exits within the grace period,
      the grace period expires, or `terminate` or the bounded `wait`
      raises some other error. */
  datatype StopOutcome = ExitsInGrace | GraceExpires | TerminateRaises | WaitRaises

  datatype ProcAction = Terminate(pid: int) | WaitUpTo(pid: int, seconds: nat) | Kill(pid: int) | WaitExit(pid: int)

  datatype Cleanup = Cleanup(process: Option<Handle>, actions: seq<ProcAction>)

  /** `cleanup_opencode`: nothing to do without a handle; otherwise request
      termination, wait up to 5 s, force-kill only when that wait expires,
      swallow any other error, and in every case drop the handle. */
  function CleanupProcess(process: Option<Handle>, stop: StopOutcome): (r: Cleanup)
    ensures r.process.None?
    ensures r.actions == [] <==> process.None?
    ensures process.Some? ==> r.actions[0] == Terminate(process.value.pid)
    ensures forall i :: 0 <= i < |r.actions| ==> r.actions[i].pid == process.value.pid
    ensures (exists i :: 0 <= i < |r.actions| && r.actions[i].Kill?) <==> process.Some? && stop == GraceExpires
    ensures process.Some? ==>
      |r.actions| == (if stop == GraceExpires then 4 else if stop == TerminateRaises then 1 else 2)
    ensures process.Some? && stop != TerminateRaises ==>
      |r.actions| >= 2 && r.actions[1] == WaitUpTo(process.value.pid, GraceSeconds)
    ensures process.Some? && stop == GraceExpires ==>
      r.actions[2..] == [Kill(process.value.pid), WaitExit(process.value.pid)]
  {
    match process
    case None => Cleanup(None, [])
    case Some(h) =>
      var pid := h.pid;
      match stop
      case ExitsInGrace => Cleanup(None, [Terminate(pid), WaitUpTo(pid, GraceSeconds)])
      case GraceExpires =>
        var actions := [Terminate(pid), WaitUpTo(pid, GraceSeconds), Kill(pid), WaitExit(pid)];
        assert actions[2].Kill?;
        Cleanup(None, actions)
      case TerminateRaises => Cleanup(None, [Terminate(pid)])
      case WaitRaises => Cleanup(None, [Terminate(pid), WaitUpTo(pid, GraceSeconds)])
  }

  /** Cleanup is idempotent: after one call a second does nothing, whatever
      the child would have done. */
  lemma CleanupIdempotent(process: Option<Handle>, first: StopOutcome, second: StopOutcome)
    ensures CleanupProcess(CleanupProcess(process, first).process, second) == Cleanup(None, [])
  {
  }

  /** How a supervised start ends. */
  datatype Startup =
    | Started(endpoint: Endpoint, attempts: nat)
    | ExecutableMissing
    | StartTimedOut(cleanup: seq<ProcAction>)

  /** `start_opencode`: `spawned` is the child `Popen` returned, `None`
      when the executable was not found. On a missing executable or a
      failed poll the client exits with status 1; after a failed poll the
      child is cleaned up exactly once first. */
  method StartServer(spawned: Option<Handle>, responds: nat -> bool, stop: StopOutcome)
    returns (process: Option<Handle>, outcome: Startup, exitCode: Option<int>)
    ensures spawned.None? ==> outcome == ExecutableMissing && process.None? && exitCode == Some(1)
    ensures outcome.Started? ==>
      && spawned.Some? && process == spawned && exitCode.None?
      && outcome.endpoint == LocalPort(ServePort)
      && 1 <= outcome.attempts <= HealthAttempts && responds(outcome.attempts - 1)
      && (forall i :: 0 <= i < outcome.attempts - 1 ==> !responds(i))
    ensures outcome.StartTimedOut? ==>
      && spawned.Some? && process.None? && exitCode == Some(1)
      && outcome.cleanup == CleanupProcess(spawned, stop).actions
      && (forall i :: 0 <= i < HealthAttempts ==> !responds(i))
    ensures spawned.Some? && (exists i :: 0 <= i < HealthAttempts && responds(i)) ==> outcome.Started?
    ensures outcome.ExecutableMissing? <==> spawned.None?
    ensures spawned.Some? && (forall i :: 0 <= i < HealthAttempts ==> !responds(i)) ==> outcome.StartTimedOut?
  {
    if spawned.None? {
      return None, ExecutableMissing, Some(1);
    }
    var attempts, healthy, _ := PollHealth(responds);
    if healthy {
      return spawned, Started(LocalPort(ServePort), attempts), None;
    }
    var c := CleanupProcess(spawned, stop);
    return c.process, StartTimedOut(c.actions), Some(1);
  }
}
