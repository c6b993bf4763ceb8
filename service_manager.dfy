/**
 * The coordinator's microservice supervisor: one `SubmoduleService` per
 * worker process (its status and its process handle) and a `ServiceManager`
 * registry that starts, stops, restarts and probes all of them.
 *
 * The outside world is given to each operation as oracle values:
 *  - `files`: the set of paths that exist (`Path.exists()`);
 *  - `spawn`: the handle `subprocess.Popen` returns, or None when it raises;
 *  - `probe(k)`: what the k-th `requests.get(health_url, timeout=2)` of a
 *    readiness wait gives;
 *  - `StopOutcome`: how `terminate()` followed by `wait(timeout=10)` ends.
 */
module Services {
  import opened Common
  import opened Strings
  import Config

  type Path = Config.Path

  datatype ServiceStatus = Stopped | Starting | Running | Error | Unhealthy
  {
    /** The enum member's `.value`. */
    function Value(): string
    {
      match this
      case Stopped => "stopped"
      case Starting => "starting"
      case Running => "running"
      case Error => "error"
      case Unhealthy => "unhealthy"
    }
  }

  /** One health request: an HTTP response with its status code, or a `RequestException`. */
  datatype ProbeOutcome = Response(code: int) | RequestException

  /** An OS process handle as returned by `subprocess.Popen`. */
  datatype Process = Process(pid: int)

  /**
   * How `terminate()` then `wait(timeout=10)` ends: the child exits in time,
   * the wait raises `TimeoutExpired` (and the child is killed), or some other
   * exception is raised.
   */
  datatype StopOutcome = Exited | WaitTimedOut | Failed

  /** `max_retries` of the readiness loop in `start()`: one probe per second for a minute. */
  const MaxStartupProbes := 60

  /** The part of a service that its operations change. */
  datatype ServiceState = ServiceState(status: ServiceStatus, process: Option<Process>)

  /** `start()`'s boolean result, the state it leaves and how many health probes it issued. */
  datatype StartReport = StartReport(state: ServiceState, ok: bool, probes: nat)

  /** `stop()`'s boolean result and the state it leaves. */
  datatype StopReport = StopReport(state: ServiceState, ok: bool)

  /** A probe counts as healthy exactly when the response code is 200. */
  predicate Healthy(p: ProbeOutcome)
  {
    p == Response(200)
  }

  /** The status `check_health()` leaves behind. */
  function StatusAfterProbe(status: ServiceStatus, p: ProbeOutcome): (r: ServiceStatus)
    ensures r == Running <==> Healthy(p)
    ensures p.Response? && !Healthy(p) ==> r == Unhealthy
    ensures p.RequestException? && status == Running ==> r == Unhealthy
    ensures p.RequestException? && status != Running ==> r == status
  {
    match p
    case Response(code) => if code == 200 then Running else Unhealthy
    case RequestException => if status == Running then Unhealthy else status
  }

  /** The index of the first healthy probe among `probe(from)`, ..., `probe(MaxStartupProbes - 1)`. */
  function FirstHealthyProbe(probe: nat -> ProbeOutcome, from: nat): (r: Option<nat>)
    ensures r.Some? ==> from <= r.value < MaxStartupProbes && Healthy(probe(r.value))
    ensures forall j :: from <= j < MaxStartupProbes && (r.None? || j < r.value) ==> !Healthy(probe(j))
    decreases MaxStartupProbes - from
  {
    if from >= MaxStartupProbes then None
    else if Healthy(probe(from)) then Some(from)
    else FirstHealthyProbe(probe, from + 1)
  }

  /**
   * What `start()` does to a service in state `st`. `launchable` says that the
   * interpreter and the script were both found.
   */
  function StartEffect(st: ServiceState, launchable: bool, spawn: Option<Process>,
                       probe: nat -> ProbeOutcome): (r: StartReport)
    // already running: success at once, nothing probed, spawned or changed
    ensures st.status == Running ==> r == StartReport(st, true, 0)
    // interpreter or script missing, or Popen raised: nothing spawned or probed, Error, false
    ensures st.status != Running && (!launchable || spawn.None?) ==>
      r == StartReport(ServiceState(Error, st.process), false, 0)
    // after a spawn: at least one probe, and success exactly when one of the sixty probes answers 200
    ensures st.status != Running && launchable && spawn.Some? ==>
      r.probes > 0 && (r.ok <==> FirstHealthyProbe(probe, 0).Some?)
    // the result is true exactly when the service ends Running, false exactly when it ends Error
    ensures r.ok <==> r.state.status == Running
    ensures !r.ok <==> r.state.status == Error
    // a process is spawned only when both files exist; otherwise the old handle stays
    ensures st.status != Running && launchable && spawn.Some? ==> r.state.process == spawn
    ensures !(st.status != Running && launchable && spawn.Some?) ==> r.state.process == st.process
    ensures r.probes <= MaxStartupProbes
    ensures !launchable ==> r.probes == 0
    // success after a wait: the last probe was the first healthy one
    ensures r.ok && r.probes > 0 ==>
      Healthy(probe(r.probes - 1)) && forall j :: 0 <= j < r.probes - 1 ==> !Healthy(probe(j))
    // timeout: sixty unhealthy probes, status Error, spawned handle kept
    ensures !r.ok && r.probes > 0 ==>
      r.probes == MaxStartupProbes && r.state.process == spawn
      && forall j :: 0 <= j < MaxStartupProbes ==> !Healthy(probe(j))
  {
    if st.status == Running then StartReport(st, true, 0)
    else if !launchable || spawn.None? then StartReport(ServiceState(Error, st.process), false, 0)
    else
      match FirstHealthyProbe(probe, 0)
      case Some(k) => StartReport(ServiceState(Running, spawn), true, k + 1)
      case None => StartReport(ServiceState(Error, spawn), false, MaxStartupProbes)
  }

  /**
   * Once a process is spawned, `start()` succeeds exactly when one of the
   * sixty readiness probes answers 200.
   */
  lemma StartSucceedsIffSomeProbeHealthy(st: ServiceState, launchable: bool, spawn: Option<Process>,
                                         probe: nat -> ProbeOutcome)
    requires st.status != Running && launchable && spawn.Some?
    ensures StartEffect(st, launchable, spawn, probe).ok <==>
      exists j :: 0 <= j < MaxStartupProbes && Healthy(probe(j))
  {
    var first := FirstHealthyProbe(probe, 0);
    if first.Some? {
      assert Healthy(probe(first.value));
    }
  }

  /** What `stop()` does to a service in state `st`. */
  function StopEffect(st: ServiceState, outcome: StopOutcome): (r: StopReport)
    // the handle is never reset
    ensures r.state.process == st.process
    // no handle: trivially true, status untouched (a service that failed to start stays Error)
    ensures st.process.None? ==> r == StopReport(st, true)
    // a graceful exit or a kill after the timeout both end Stopped
    ensures st.process.Some? && outcome != Failed ==> r.ok && r.state.status == Stopped
    // any other exception: false, status unchanged
    ensures st.process.Some? && outcome == Failed ==> !r.ok && r.state == st
  {
    if st.process.None? then StopReport(st, true)
    else if outcome == Failed then StopReport(st, false)
    else StopReport(ServiceState(Stopped, st.process), true)
  }

  /** If `stop()` fails on a running service, `restart()` reports success without restarting anything. */
  lemma RestartAfterFailedStopIsNoop(st: ServiceState, launchable: bool, spawn: Option<Process>,
                                     probe: nat -> ProbeOutcome)
    requires st.status == Running && st.process.Some?
    ensures StartEffect(StopEffect(st, Failed).state, launchable, spawn, probe) == StartReport(st, true, 0)
  {
  }

  /**
   * A start that timed out leaves its process handle set; the next start
   * replaces the handle, so the earlier child is no longer reachable by `stop()`.
   */
  lemma RetryAfterTimeoutDropsHandle(st: ServiceState, first: Process, second: Process,
                                     probe: nat -> ProbeOutcome, probe2: nat -> ProbeOutcome)
    requires st.status != Running
    requires forall j :: 0 <= j < MaxStartupProbes ==> !Healthy(probe(j))
    ensures StartEffect(st, true, Some(first), probe).state == ServiceState(Error, Some(first))
    ensures StartEffect(StartEffect(st, true, Some(first), probe).state, true, Some(second), probe2).state.process
            == Some(second)
  {
    var timedOut := StartEffect(st, true, Some(first), probe);
    assert timedOut.state == ServiceState(Error, Some(first)) by {
      assert FirstHealthyProbe(probe, 0).None?;
    }
  }

  /** One supervised microservice (`SubmoduleService`). */
  class SubmoduleService {
    const name: string
    const path: Path
    const script: string
    const host: string
    const port: int
    const venvPath: Path
    var process: Option<Process>
    var status: ServiceStatus

    constructor (name: string, path: Path, script: string, host: string, port: int, venvPath: Option<Path>)
      ensures this.name == name && this.path == path && this.script == script
      ensures this.host == host && this.port == port
      ensures this.venvPath == if venvPath.Some? then venvPath.value else path + ["venv"]
      ensures process == None && status == Stopped
    {
      this.name := name;
      this.path := path;
      this.script := script;
      this.host := host;
      this.port := port;
      this.venvPath := if venvPath.Some? then venvPath.value else path + ["venv"];
      process := None;
      status := Stopped;
    }

    function State(): ServiceState
      reads this
    {
      ServiceState(status, process)
    }

    /** The `url` property. */
    function Url(): string
    {
      Config.HttpUrl(host, port)
    }

    /** The `health_url` property: the service URL followed by "/health". */
    function HealthUrl(): (r: string)
      ensures StartsWith(r, "http://") && StartsWith(r, Url())
      ensures r[|Url()|..] == "/health"
    {
      Url() + "/health"
    }

    /**
     * Two services share a health URL exactly when they share a base URL,
     * and (for hosts without ':') exactly when they have the same host and port.
     */
    static lemma HealthUrlInjective(a: SubmoduleService, b: SubmoduleService)
      ensures a.HealthUrl() == b.HealthUrl() <==> a.Url() == b.Url()
      ensures ':' !in a.host && ':' !in b.host ==>
        (a.HealthUrl() == b.HealthUrl() <==> a.host == b.host && a.port == b.port)
    {
      if a.HealthUrl() == b.HealthUrl() {
        assert |a.HealthUrl()| == |b.HealthUrl()|;
        assert a.Url() == a.HealthUrl()[..|a.Url()|] == b.HealthUrl()[..|b.Url()|] == b.Url();
      }
      if ':' !in a.host && ':' !in b.host {
        Config.HttpUrlInjective(a.host, a.port, b.host, b.port);
      }
    }

    function WindowsInterpreter(): Path
    {
      venvPath + ["Scripts", "python.exe"]
    }

    function UnixInterpreter(): Path
    {
      venvPath + ["bin", "python"]
    }

    /**
     * `get_python_executable()`: the venv's Windows interpreter if it exists,
     * else its Unix one; None (FileNotFoundError) when the venv or both are missing.
     */
    function PythonExecutable(files: set<Path>): (r: Option<Path>)
      ensures r.Some? ==> r.value in files && venvPath in files
      ensures r.Some? ==> r.value == WindowsInterpreter() || r.value == UnixInterpreter()
      ensures venvPath in files && WindowsInterpreter() in files ==> r == Some(WindowsInterpreter())
      ensures r.None? <==>
        venvPath !in files || (WindowsInterpreter() !in files && UnixInterpreter() !in files)
    {
      if venvPath in files then
        if WindowsInterpreter() in files then Some(WindowsInterpreter())
        else if UnixInterpreter() in files then Some(UnixInterpreter())
        else None
      else None
    }

    /** The interpreter and `path / script` both exist, so `start()` reaches `Popen`. */
    predicate Launchable(files: set<Path>)
    {
      PythonExecutable(files).Some? && path + [script] in files
    }

    /** `check_health()`: true exactly for a 200 response; the status follows `StatusAfterProbe`. */
    method CheckHealth(probe: ProbeOutcome) returns (healthy: bool)
      modifies this`status
      ensures healthy <==> Healthy(probe)
      ensures status == StatusAfterProbe(old(status), probe)
    {
      match probe
      case Response(code) =>
        healthy := code == 200;
        if healthy {
          status := Running;
        } else {
          status := Unhealthy;
        }
      case RequestException =>
        if status == Running {
          status := Unhealthy;
        }
        healthy := false;
    }

    /**
     * `start()`. `probes` counts the health requests the readiness loop made.
     */
    method Start(files: set<Path>, spawn: Option<Process>, probe: nat -> ProbeOutcome)
      returns (ok: bool, ghost probes: nat)
      modifies this
      ensures StartReport(State(), ok, probes) == StartEffect(old(State()), Launchable(files), spawn, probe)
    {
      if status == Running {
        return true, 0;
      }
      status := Starting;
      var python := PythonExecutable(files);
      if python.None? {
        status := Error;
        return false, 0;
      }
      var scriptPath := path + [script];
      if scriptPath !in files {
        status := Error;
        return false, 0;
      }
      if spawn.None? {
        status := Error;
        return false, 0;
      }
      process := spawn;
      var i := 0;
      while i < MaxStartupProbes
        invariant 0 <= i <= MaxStartupProbes
        invariant process == spawn
        invariant FirstHealthyProbe(probe, i) == FirstHealthyProbe(probe, 0)
      {
        var healthy := CheckHealth(probe(i));
        if healthy {
          status := Running;
          return true, i + 1;
        }
        i := i + 1;
      }
      status := Error;
      return false, MaxStartupProbes;
    }

    /** `stop()`. */
    method Stop(outcome: StopOutcome) returns (ok: bool)
      modifies this`status
      ensures StopReport(State(), ok) == StopEffect(old(State()), outcome)
    {
      if process.None? {
        return true;
      }
      match outcome
      case Exited =>
        status := Stopped;
        ok := true;
      case WaitTimedOut =>
        status := Stopped;
        ok := true;
      case Failed =>
        ok := false;
    }

    /** `restart()`: `stop()`, a pause, then the result of `start()`. */
    method Restart(outcome: StopOutcome, files: set<Path>, spawn: Option<Process>, probe: nat -> ProbeOutcome)
      returns (ok: bool, ghost probes: nat)
      modifies this
      ensures StartReport(State(), ok, probes)
              == StartEffect(StopEffect(old(State()), outcome).state, Launchable(files), spawn, probe)
    {
      var _ := Stop(outcome);
      ok, probes := Start(files, spawn, probe);
    }
  }

  /** One entry of `get_status()`. */
  datatype StatusEntry = StatusEntry(status: string, url: string, healthy: bool)

  /** The registry of services, keyed by name, iterated in registration order. */
  class ServiceManager {
    /** The keys of `services` in the order they were registered. */
    const order: seq<string>
    const services: map<string, SubmoduleService>

    ghost predicate Valid()
    {
      && NoDuplicates(order)
      && (forall n :: n in order <==> n in services)
      && (forall a, b :: a in services && b in services && a != b ==> services[a] != services[b])
    }

    /** `__init__` with `_initialize_services()`: registers the RAG-Langchain service only, as "rag". */
    constructor (settings: Config.Settings, root: Path)
      ensures Valid()
      ensures order == ["rag"] && services.Keys == {"rag"}
      ensures fresh(services["rag"])
      ensures services["rag"].name == "RAG-Langchain"
      ensures services["rag"].path == Config.RagLangchainPath(root)
      ensures services["rag"].script == "api_server.py"
      ensures services["rag"].Url() == Config.ServiceUrls(settings)["rag"]
      ensures services["rag"].venvPath == Config.RagLangchainPath(root) + [".venv"]
      ensures services["rag"].State() == ServiceState(Stopped, None)
    {
      var rag := new SubmoduleService("RAG-Langchain", Config.RagLangchainPath(root), "api_server.py",
                                      settings.ragServiceHost, settings.ragServicePort,
                                      Some(Config.RagLangchainPath(root) + [".venv"]));
      order := ["rag"];
      services := map["rag" := rag];
    }

    /** `get_service(name)`. */
    function GetService(name: string): (r: Option<SubmoduleService>)
      ensures r.Some? <==> name in services
      ensures r.Some? ==> r.value == services[name]
    {
      if name in services then Some(services[name]) else None
    }

    /**
     * `start_all()`: `start()` on every service in registration order with no
     * short-circuit; true exactly when every start returned true.
     */
    method StartAll(files: set<Path>, spawn: string -> Option<Process>, probe: string -> nat -> ProbeOutcome)
      returns (success: bool, ghost visited: seq<string>)
      requires Valid()
      modifies services.Values
      ensures visited == order
      ensures forall n :: n in services ==>
        services[n].State()
        == StartEffect(old(services[n].State()), services[n].Launchable(files), spawn(n), probe(n)).state
      ensures success <==> forall n :: n in services ==>
        StartEffect(old(services[n].State()), services[n].Launchable(files), spawn(n), probe(n)).ok
    {
      success := true;
      visited := [];
      var i := 0;
      while i < |order|
        invariant 0 <= i <= |order|
        invariant visited == order[..i]
        invariant forall n :: n in services && n in visited ==>
          services[n].State()
          == StartEffect(old(services[n].State()), services[n].Launchable(files), spawn(n), probe(n)).state
        invariant forall n :: n in services && n !in visited ==>
          services[n].State() == old(services[n].State())
        invariant success <==> forall n :: n in visited ==>
          StartEffect(old(services[n].State()), services[n].Launchable(files), spawn(n), probe(n)).ok
      {
        var name := order[i];
        var service := services[name];
        assert forall n :: n in services && n != name ==> services[n] != service;
        assert name !in visited;
        var ok;
        ghost var probes;
        ok, probes := service.Start(files, spawn(name), probe(name));
        if !ok {
          success := false;
        }
        visited := visited + [name];
        i := i + 1;
      }
    }

    /** `stop_all()`: `stop()` on every service, results ignored. */
    method StopAll(outcome: string -> StopOutcome)
      requires Valid()
      modifies services.Values
      ensures forall n :: n in services ==>
        services[n].State() == StopEffect(old(services[n].State()), outcome(n)).state
    {
      var i := 0;
      while i < |order|
        invariant 0 <= i <= |order|
        invariant forall n :: n in services && n in order[..i] ==>
          services[n].State() == StopEffect(old(services[n].State()), outcome(n)).state
        invariant forall n :: n in services && n !in order[..i] ==>
          services[n].State() == old(services[n].State())
      {
        var name := order[i];
        var _ := services[name].Stop(outcome(name));
        i := i + 1;
      }
    }

    /** `restart_all()`: `stop_all()`, a pause, then the result of `start_all()`. */
    method RestartAll(outcome: string -> StopOutcome, files: set<Path>, spawn: string -> Option<Process>,
                      probe: string -> nat -> ProbeOutcome)
      returns (success: bool)
      requires Valid()
      modifies services.Values
      ensures forall n :: n in services ==>
        services[n].State()
        == StartEffect(StopEffect(old(services[n].State()), outcome(n)).state,
                       services[n].Launchable(files), spawn(n), probe(n)).state
      ensures success <==> forall n :: n in services ==>
        StartEffect(StopEffect(old(services[n].State()), outcome(n)).state,
                    services[n].Launchable(files), spawn(n), probe(n)).ok
    {
      StopAll(outcome);
      ghost var visited;
      success, visited := StartAll(files, spawn, probe);
    }

    /** `health_check_all()`: one fresh probe per service. */
    method HealthCheckAll(probe: string -> ProbeOutcome) returns (health: map<string, bool>)
      requires Valid()
      modifies services.Values
      ensures health.Keys == services.Keys
      ensures forall n :: n in services ==> (health[n] <==> Healthy(probe(n)))
      ensures forall n :: n in services ==>
        services[n].State() == ServiceState(StatusAfterProbe(old(services[n].status), probe(n)),
                                            old(services[n].process))
    {
      health := map[];
      var i := 0;
      while i < |order|
        invariant 0 <= i <= |order|
        invariant health.Keys == set n | n in order[..i]
        invariant forall n :: n in health ==> (health[n] <==> Healthy(probe(n)))
        invariant forall n :: n in services && n in order[..i] ==>
          services[n].State() == ServiceState(StatusAfterProbe(old(services[n].status), probe(n)),
                                              old(services[n].process))
        invariant forall n :: n in services && n !in order[..i] ==>
          services[n].State() == old(services[n].State())
      {
        var name := order[i];
        var ok := services[name].CheckHealth(probe(name));
        health := health[name := ok];
        i := i + 1;
      }
    }

    /**
     * `get_status()`: for each service its status as it was before this call,
     * its URL, and a fresh health probe (which itself updates the status).
     */
    method GetStatus(probe: string -> ProbeOutcome) returns (report: map<string, StatusEntry>)
      requires Valid()
      modifies services.Values
      ensures report.Keys == services.Keys
      ensures forall n :: n in services ==>
        report[n] == StatusEntry(old(services[n].status).Value(), services[n].Url(), Healthy(probe(n)))
      ensures forall n :: n in services ==>
        services[n].State() == ServiceState(StatusAfterProbe(old(services[n].status), probe(n)),
                                            old(services[n].process))
    {
      report := map[];
      var i := 0;
      while i < |order|
        invariant 0 <= i <= |order|
        invariant forall n :: n in services && n in order[..i] ==>
          services[n].State() == ServiceState(StatusAfterProbe(old(services[n].status), probe(n)),
                                              old(services[n].process))
        invariant forall n :: n in services && n !in order[..i] ==>
          services[n].State() == old(services[n].State())
        invariant forall n :: n in report <==> n in order[..i]
        invariant forall n :: n in report ==>
          report[n] == StatusEntry(old(services[n].status).Value(), services[n].Url(), Healthy(probe(n)))
      {
        var name := order[i];
        var service := services[name];
        assert forall n :: n in services && n != name ==> services[n] != service;
        assert name !in order[..i];
        assert order[..i + 1] == order[..i] + [name];
        var before := service.status;
        var healthy := service.CheckHealth(probe(name));
        report := report[name := StatusEntry(before.Value(), service.Url(), healthy)];
        i := i + 1;
      }
    }
  }
}
