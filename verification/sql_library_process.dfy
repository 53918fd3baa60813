/**
  The lifecycle of the local gateway process (sql/sql_library_process.py). `Start` clears the
  port, spawns the gateway and waits for it to report readiness within a bounded number of output
  lines; `Stop` terminates it. Both are idempotent on the `started` flag.

  The operating system is a parameter: the result of probing the port, whether the kill pipeline
  raises, the command line the CLI was started with, whether spawning raises, and the lines the
  gateway prints.
*/
module SqlLibraryProcess {
  import opened Base
  import opened Text
  import opened SqlVersionSelection

  const DefaultGatewayPort := 25333
  const ReadyMarker := "Gateway Server Started"
  /** The readiness scan reads at most this many output lines. */
  const ReadinessLines := 30

  /** What `connect_ex(("localhost", port))` gave: its result code, or an exception. */
  datatype PortProbe = ConnectResult(code: int) | ProbeRaised

  /** The spawned gateway, known by the command line that started it. */
  datatype Process = Process(command: seq<string>)

  /** The daemon thread that drains the output of a process. */
  datatype OutputThread = OutputThread(drains: Process)

  /**
    Everything `start` observes of the machine. `killRaises` says whether running the kill
    pipeline raises; `spawnRaises` whether an exception escapes while the log file is opened or the
    process is spawned; `output` is what the process prints, line by line; `outputBreaks` whether
    reading past those lines raises instead of returning the end of the output.
  */
  datatype LaunchEnv = LaunchEnv(
    probe: nat -> PortProbe,
    killRaises: bool,
    argv: seq<string>,
    projectRoot: string,
    spawnRaises: bool,
    output: seq<string>,
    outputBreaks: bool)

  /** `["java", "-jar", jar, "Gateway"]` when the CLI was given --version or -v, else the gradle run. */
  function GatewayCommand(argv: seq<string>, jarPath: string): (cmd: seq<string>)
    ensures |argv| > 1 && ("--version" in argv || "-v" in argv) ==> cmd == ["java", "-jar", jarPath, "Gateway"]
    ensures !(|argv| > 1 && ("--version" in argv || "-v" in argv)) ==> cmd == ["./gradlew", "run", "--args=Gateway"]
    ensures |cmd| >= 3 && cmd[|cmd| - 1] != ""
  {
    if |argv| > 1 && ("--version" in argv || "-v" in argv) then ["java", "-jar", jarPath, "Gateway"]
    else ["./gradlew", "run", "--args=Gateway"]
  }

  /** `readline()` on the process output: past the end of the output it returns "". */
  function LineAt(output: seq<string>, i: nat): string {
    if i < |output| then output[i] else ""
  }

  /** One of the first `ReadinessLines` lines contains the marker. */
  predicate ReadyWithin(output: seq<string>) {
    exists i :: 0 <= i < ReadinessLines && Contains(LineAt(output, i), ReadyMarker)
  }

  /** The scan reaches the end of a broken output before it finds the marker, so `readline` raises. */
  predicate ReadBreaks(output: seq<string>, breaks: bool) {
    breaks && |output| < ReadinessLines && !ReadyWithin(output)
  }

  /**
    The readiness scan: read lines one at a time, stop at the first that contains the marker or
    after `ReadinessLines` lines. `consumed` is the number of lines read; `raised` says that a
    read past the end of a broken output raised.
  */
  method AwaitReady(output: seq<string>, breaks: bool) returns (ready: bool, raised: bool, consumed: nat)
    ensures ready <==> ReadyWithin(output)
    ensures raised <==> ReadBreaks(output, breaks)
    ensures consumed <= ReadinessLines
    ensures ready ==> 0 < consumed && Contains(LineAt(output, consumed - 1), ReadyMarker)
    ensures forall i :: 0 <= i < consumed - 1 ==> !Contains(LineAt(output, i), ReadyMarker)
    ensures raised ==> consumed == |output|
    ensures !ready && !raised ==> consumed == ReadinessLines
  {
    ready, raised := false, false;
    consumed := 0;
    while consumed < ReadinessLines
      invariant consumed <= ReadinessLines
      invariant forall i :: 0 <= i < consumed ==> !Contains(LineAt(output, i), ReadyMarker)
      invariant breaks ==> consumed <= |output|
    {
      if breaks && consumed >= |output| {
        assert consumed == |output|;
        NotReadyAfterEnd(output, consumed);
        raised := true;
        return;
      }
      var line := LineAt(output, consumed);
      consumed := consumed + 1;
      if Contains(line, ReadyMarker) {
        ready := true;
        return;
      }
    }
  }

  /** Lines past the end of the output are empty and never hold the marker. */
  lemma PastEndNeverReady(output: seq<string>, i: nat)
    requires |output| <= i
    ensures !Contains(LineAt(output, i), ReadyMarker)
  {
    assert LineAt(output, i) == "";
  }

  /** When none of the printed lines before the end holds the marker, none of the first thirty does. */
  lemma NotReadyAfterEnd(output: seq<string>, n: nat)
    requires n == |output|
    requires forall i :: 0 <= i < n ==> !Contains(LineAt(output, i), ReadyMarker)
    ensures !ReadyWithin(output)
  {
    forall i | n <= i < ReadinessLines ensures !Contains(LineAt(output, i), ReadyMarker) {
      PastEndNeverReady(output, i);
    }
  }

  /** So readiness depends only on the lines actually printed, and only on the first thirty of them. */
  lemma ReadyWithinPrinted(output: seq<string>)
    ensures ReadyWithin(output) <==>
            exists i :: 0 <= i < ReadinessLines && i < |output| && Contains(output[i], ReadyMarker)
  {
    if ReadyWithin(output) {
      var i :| 0 <= i < ReadinessLines && Contains(LineAt(output, i), ReadyMarker);
      if |output| <= i {
        PastEndNeverReady(output, i);
      }
      assert i < |output| && Contains(output[i], ReadyMarker);
    }
    if exists i :: 0 <= i < ReadinessLines && i < |output| && Contains(output[i], ReadyMarker) {
      var i :| 0 <= i < ReadinessLines && i < |output| && Contains(output[i], ReadyMarker);
      assert Contains(LineAt(output, i), ReadyMarker);
    }
  }

  /** How a `start` from the stopped state ends. */
  datatype StartPath = PortBusy | SpawnFailed | ReadFailed | TimedOut | Ready

  /** The path `start` takes, decided by the port probe, the kill, the spawn and the readiness scan, in that order. */
  function StartPathOf(env: LaunchEnv, port: nat): (path: StartPath)
    ensures path == PortBusy <==> env.probe(port) == ConnectResult(0) && env.killRaises
    ensures path == SpawnFailed <==> !(env.probe(port) == ConnectResult(0) && env.killRaises) && env.spawnRaises
    ensures path == ReadFailed <==> !(env.probe(port) == ConnectResult(0) && env.killRaises) && !env.spawnRaises
                                    && ReadBreaks(env.output, env.outputBreaks)
    ensures path == Ready <==> !(env.probe(port) == ConnectResult(0) && env.killRaises) && !env.spawnRaises
                               && ReadyWithin(env.output)
  {
    if env.probe(port) == ConnectResult(0) && env.killRaises then PortBusy
    else if env.spawnRaises then SpawnFailed
    else if ReadBreaks(env.output, env.outputBreaks) then ReadFailed
    else if !ReadyWithin(env.output) then TimedOut
    else Ready
  }

  /** `SqlLibraryManager`. */
  class SqlLibraryManager {
    const gatewayPort: nat
    var started: bool
    var process: Option<Process>
    var outputThread: Option<OutputThread>
    var threadRunning: bool

    /** A started manager has a process and a drain thread, and the drain thread only runs while started. */
    predicate Valid()
      reads this
    {
      && (started ==> process.Some? && outputThread.Some?)
      && (threadRunning ==> started)
    }

    constructor (port: nat := DefaultGatewayPort)
      ensures Valid()
      ensures gatewayPort == port
      ensures !started && process.None? && outputThread.None? && !threadRunning
    {
      gatewayPort := port;
      started := false;
      process := None;
      outputThread := None;
      threadRunning := false;
    }

    /** `_check_port_in_use`: the port is taken exactly when connecting to it succeeds. */
    function CheckPortInUse(probe: nat -> PortProbe): (inUse: bool)
      ensures inUse <==> probe(gatewayPort).ConnectResult? && probe(gatewayPort).code == 0
      ensures probe(gatewayPort).ProbeRaised? ==> !inUse
    {
      match probe(gatewayPort)
      case ConnectResult(code) => code == 0
      case ProbeRaised => false
    }

    /** The shell pipeline that kills whatever listens on the port. */
    function KillCommand(): (cmd: string)
      ensures Contains(cmd, ":" + NatToString(gatewayPort) + " ")
    {
      var key := ":" + NatToString(gatewayPort) + " ";
      var cmd := "lsof -i " + key + "| grep LISTEN | awk '{print $2}' | xargs -r kill -9";
      assert cmd[8..8 + |key|] == key;
      assert OccursAt(cmd, key, 8);
      ContainsIff(cmd, key);
      cmd
    }

    /**
      `_kill_process_on_port`: runs the kill pipeline and reports success unless running it
      raised. It does not look at the port again.
    */
    method KillProcessOnPort(runRaises: string -> bool) returns (ok: bool, ran: string)
      ensures ran == KillCommand()
      ensures ok <==> !runRaises(ran)
    {
      ran := KillCommand();
      ok := !runRaises(ran);
    }

    /** `start`. `versions` is the version manager whose jar the --version launch runs. */
    method Start(versions: SqlVersion, env: LaunchEnv) returns (ok: bool)
      requires Valid()
      modifies this
      ensures Valid()
      ensures old(started) ==> ok && unchanged(this)
      ensures !old(started) ==>
                var path := StartPathOf(env, gatewayPort);
                && (ok <==> path == Ready)
                && (started <==> path == Ready)
                && (path == PortBusy || path == SpawnFailed ==> process.None?)
                && (path == ReadFailed || path == TimedOut || path == Ready ==>
                      process == Some(Process(GatewayCommand(env.argv, JarPath(env.projectRoot, versions.version)))))
                && (path == Ready ==> threadRunning && outputThread == Some(OutputThread(process.value)))
                && (path != Ready ==> !threadRunning && outputThread == old(outputThread))
    {
      if started {
        return true;
      }
      process := None;
      if CheckPortInUse(env.probe) {
        var killed, _ := KillProcessOnPort(_ => env.killRaises);
        if !killed {
          return false;
        }
      }
      if env.spawnRaises {
        return false;
      }
      var command := GatewayCommand(env.argv, versions.GetJarPath(env.projectRoot));
      process := Some(Process(command));
      var ready, raised, _ := AwaitReady(env.output, env.outputBreaks);
      if raised {
        return false;
      }
      if !ready {
        var _ := Stop(false, false);
        return false;
      }
      threadRunning := true;
      outputThread := Some(OutputThread(process.value));
      started := true;
      return true;
    }

    /**
      `stop`. `killRaises` is whether killing the process raises; `threadAlive` whether the drain
      thread is still alive when stop looks at it.
    */
    method Stop(killRaises: bool, threadAlive: bool) returns (ok: bool)
      requires Valid()
      modifies this
      ensures Valid()
      ensures !old(started) ==> ok && unchanged(this)
      ensures old(started) && killRaises ==>
                && !ok && !threadRunning && started
                && process == old(process) && outputThread == old(outputThread)
      ensures old(started) && !killRaises ==>
                && ok && !threadRunning && !started && process.None?
                && outputThread == (if threadAlive then None else old(outputThread))
    {
      if !started {
        return true;
      }
      threadRunning := false;
      if process.Some? {
        if killRaises {
          return false;
        }
        process := None;
      }
      if outputThread.Some? && threadAlive {
        outputThread := None;
      }
      started := false;
      return true;
    }
  }

  /**
    A manager that was started and then stopped starts again from scratch: the second `start`
    takes the spawn path instead of returning early.
  */
  method StartStopStart(m: SqlLibraryManager, versions: SqlVersion, first: LaunchEnv, second: LaunchEnv, threadAlive: bool)
    returns (startedFirst: bool, stopped: bool, startedSecond: bool)
    requires m.Valid() && !m.started
    modifies m
    ensures startedFirst <==> StartPathOf(first, m.gatewayPort) == Ready
    ensures startedFirst ==> stopped
    ensures startedFirst ==> (startedSecond <==> StartPathOf(second, m.gatewayPort) == Ready)
  {
    startedFirst := m.Start(versions, first);
    stopped := true;
    startedSecond := false;
    if startedFirst {
      stopped := m.Stop(false, threadAlive);
      startedSecond := m.Start(versions, second);
    }
  }
}
