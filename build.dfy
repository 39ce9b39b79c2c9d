/**
 * Building a Python Lambda function in a Docker container: the environment
 * the build container is started with (which Python ABI to build wheels for,
 * which files to include, and whether the cached dependencies must be rebuilt),
 * the loop that polls the container until it exits, the handling of a failed
 * build, and the removal of the container.
 *
 * The Docker daemon is modelled by a `Container` object whose successive
 * statuses, exit code and willingness to be removed are fixed in advance;
 * the process environment and the contents of the cache version file are
 * parameters.
 */
module DockerBuild {
  import opened Wrappers
  import opened Exceptions
  import opened Strings

  const BUILD_IMAGE := "larsbutler/yolo:python"

  /** Lambda runtime name to the wheel ABI tag the build image compiles for. */
  const PYTHON_VERSION_MAP: map<string, string> :=
    map["python2.7" := "cp27-cp27mu", "python3.6" := "cp36-cp36m"]

  const CONTAINER_POLL_INTERVAL: nat := 10
  const FEEDBACK_IN_SECONDS: nat := 60
  const STATUS_EXITED := "exited"

  const REBUILD_DEPENDENCIES := "REBUILD_DEPENDENCIES"

  // ---------------------------------------------------------------------------
  // the build environment

  /** Whether the dependencies must be rebuilt: no cache version file, or one
    * whose stripped content is not the SHA-1 of the requirements file. */
  predicate MustRebuild(dependenciesSha1: string, cacheVersion: Option<string>) {
    cacheVersion.None? || Strip(cacheVersion.value, WHITESPACE) != dependenciesSha1
  }

  /** The environment the build container runs with.  `entries` is the list of
    * files and directories to package; `cacheVersion` is the content of
    * `.yolo_build_cache/cache_version.sha1`, `None` when that file is absent.
    * An unsupported runtime is the `KeyError` of the version map lookup. */
  function BuildEnvironment(entries: seq<string>, runtime: string, versionHash: string,
                            buildTime: string, dependenciesSha1: string,
                            cacheVersion: Option<string>): (r: Result<map<string, string>, Error>)
    ensures r.Err? <==> runtime !in PYTHON_VERSION_MAP
    ensures r.Err? ==> r.error == KeyError(runtime)
    ensures r.Ok? ==>
      && r.value.Keys == {"INCLUDE", "PY_VERSION", "VERSION_HASH", "BUILD_TIME"}
                         + (if MustRebuild(dependenciesSha1, cacheVersion) then {REBUILD_DEPENDENCIES} else {})
      && r.value["PY_VERSION"] == PYTHON_VERSION_MAP[runtime]
      && r.value["VERSION_HASH"] == versionHash
      && r.value["BUILD_TIME"] == buildTime
      && (REBUILD_DEPENDENCIES in r.value ==> r.value[REBUILD_DEPENDENCIES] == "1")
  {
    if runtime !in PYTHON_VERSION_MAP then Err(KeyError(runtime))
    else
      var environment := map[
        "INCLUDE" := Join(entries, " "),
        "PY_VERSION" := PYTHON_VERSION_MAP[runtime],
        "VERSION_HASH" := versionHash,
        "BUILD_TIME" := buildTime];
      if MustRebuild(dependenciesSha1, cacheVersion)
      then Ok(environment[REBUILD_DEPENDENCIES := "1"])
      else Ok(environment)
  }

  /** The build image splits `INCLUDE` on spaces: it gets back exactly the
    * configured list when no entry contains a space. */
  lemma IncludeRoundTrip(entries: seq<string>, runtime: string, versionHash: string,
                         buildTime: string, dependenciesSha1: string, cacheVersion: Option<string>)
    requires runtime in PYTHON_VERSION_MAP
    requires |entries| >= 1 && forall p :: p in entries ==> ' ' !in p
    ensures var r := BuildEnvironment(entries, runtime, versionHash, buildTime, dependenciesSha1, cacheVersion);
      r.Ok? && Split(r.value["INCLUDE"], " ") == entries
  {
    SplitJoinChar(entries, ' ');
  }

  /** A cache version file holding the digest followed by a newline (as a shell
    * `echo` writes it) does not trigger a rebuild; any other digest does. */
  lemma CacheVersionMatch(dependenciesSha1: string, written: string)
    requires |written| > 0 && written[0] !in WHITESPACE && written[|written| - 1] !in WHITESPACE
    ensures MustRebuild(dependenciesSha1, Some(written + "\n")) <==> written != dependenciesSha1
  {
    StripBetween("", written, "\n", WHITESPACE);
    assert "" + written + "\n" == written + "\n";
  }

  // ---------------------------------------------------------------------------
  // the build container

  /** A started build container.  `statuses[n]` is the status Docker reports
    * after `n` reloads; `exitCode` is the exit code once it has exited;
    * `removable` is whether the daemon accepts its removal. */
  class Container {
    const shortId: string
    const statuses: seq<string>
    const exitCode: int
    const removable: bool
    var reloads: nat
    var status: string
    var removed: bool

    /** The status field is the one of the latest reload. */
    ghost predicate Valid()
      reads this
    {
      reloads < |statuses| && status == statuses[reloads]
    }

    constructor (shortId: string, statuses: seq<string>, exitCode: int, removable: bool)
      requires |statuses| > 0
      ensures Valid() && reloads == 0 && !removed
      ensures this.shortId == shortId && this.statuses == statuses
      ensures this.exitCode == exitCode && this.removable == removable
    {
      this.shortId := shortId;
      this.statuses := statuses;
      this.exitCode := exitCode;
      this.removable := removable;
      reloads := 0;
      status := statuses[0];
      removed := false;
    }

    /** `container.reload()`: fetch the current status from the daemon. */
    method Reload()
      requires Valid() && reloads + 1 < |statuses|
      modifies this
      ensures Valid() && reloads == old(reloads) + 1
      ensures removed == old(removed)
    {
      reloads := reloads + 1;
      status := statuses[reloads];
    }

    /** `container.remove()`: refused when the daemon will not remove it or
      * it is already gone. */
    method Remove() returns (r: Result<(), Error>)
      requires Valid()
      modifies this
      ensures Valid() && reloads == old(reloads)
      ensures r.Ok? <==> removable && !old(removed)
      ensures r.Err? ==> r.error.ClientError?
      ensures removed == (old(removed) || r.Ok?)
    {
      if removable && !removed {
        removed := true;
        r := Ok(());
      } else {
        r := Err(ClientError("container could not be removed"));
      }
    }
  }

  /** The first status at or after `from` that says the container exited. */
  function FirstExit(statuses: seq<string>, from: nat): (n: nat)
    requires exists i :: from <= i < |statuses| && statuses[i] == STATUS_EXITED
    ensures from <= n < |statuses| && statuses[n] == STATUS_EXITED
    ensures forall j :: from <= j < n ==> statuses[j] != STATUS_EXITED
    decreases |statuses| - from
  {
    if statuses[from] == STATUS_EXITED then from else FirstExit(statuses, from + 1)
  }

  /** The elapsed times, in seconds, at which the poll loop prints a
    * "still running" message during its first `polls` polls. */
  function FeedbackTimes(polls: nat): seq<nat>
  {
    if polls == 0 then []
    else
      var elapsed := CONTAINER_POLL_INTERVAL * polls;
      FeedbackTimes(polls - 1) + (if elapsed % FEEDBACK_IN_SECONDS == 0 then [elapsed] else [])
  }

  /** The user hears from the loop once a minute, on the minute, and at no
    * other time. */
  lemma {:induction false} FeedbackOncePerMinute(polls: nat)
    ensures |FeedbackTimes(polls)| == polls / 6
    ensures forall j :: 0 <= j < |FeedbackTimes(polls)| ==> FeedbackTimes(polls)[j] == 60 * (j + 1)
  {
    if polls > 0 {
      FeedbackOncePerMinute(polls - 1);
      if polls % 6 == 0 {
        assert (10 * polls) % 60 == 0;
        assert (polls - 1) / 6 == polls / 6 - 1;
      } else {
        assert (10 * polls) % 60 != 0;
        assert (polls - 1) / 6 == polls / 6;
      }
    }
  }

  /** `os.path.join(base, name)` for a relative `name`. */
  function JoinPath(base: string, name: string): (path: string)
    ensures |path| >= |name| && path[|path| - |name|..] == name
  {
    if base == [] then name
    else if base[|base| - 1] == '/' then base + name
    else base + "/" + name
  }

  /** Where the logs of a failed container are saved: under the artifacts
    * directory on CircleCI (a `KeyError` when that variable is missing
    * there), in the working directory elsewhere. */
  function LogFile(osEnviron: map<string, string>, shortId: string): (r: Result<string, Error>)
    ensures r.Err? <==> "CIRCLECI" in osEnviron && "CIRCLE_ARTIFACTS" !in osEnviron
    ensures r.Err? ==> r.error == KeyError("CIRCLE_ARTIFACTS")
    ensures r.Ok? && "CIRCLECI" !in osEnviron ==> r.value == "./container_" + shortId + ".log"
    ensures r.Ok? ==> var name := "container_" + shortId + ".log";
      |r.value| >= |name| && r.value[|r.value| - |name|..] == name
  {
    var name := "container_" + shortId + ".log";
    if "CIRCLECI" in osEnviron then
      if "CIRCLE_ARTIFACTS" in osEnviron then Ok(JoinPath(osEnviron["CIRCLE_ARTIFACTS"], name))
      else Err(KeyError("CIRCLE_ARTIFACTS"))
    else Ok(JoinPath(".", name))
  }

  /** What waiting for an exited container amounts to: success on exit code
    * zero, otherwise the failure that names the saved log file. */
  function ExitOutcome(exitCode: int, osEnviron: map<string, string>, shortId: string): (r: Result<(), Error>)
    ensures r.Ok? <==> exitCode == 0
    ensures r.Err? ==> r.error.ContainerFailed? || r.error == KeyError("CIRCLE_ARTIFACTS")
    ensures exitCode != 0 && LogFile(osEnviron, shortId).Ok? ==> r == Err(ContainerFailed(LogFile(osEnviron, shortId).value))
    ensures exitCode != 0 && LogFile(osEnviron, shortId).Err? ==> r == Err(KeyError("CIRCLE_ARTIFACTS"))
  {
    if exitCode == 0 then Ok(())
    else match LogFile(osEnviron, shortId)
      case Err(e) => Err(e)
      case Ok(logFile) => Err(ContainerFailed(logFile))
  }

  /** Poll the container every `CONTAINER_POLL_INTERVAL` seconds until it has
    * exited, giving feedback once a minute; then fail when its exit code is
    * not zero.  `feedback` lists the elapsed times at which a message was
    * logged.  The container must eventually exit: the source loops forever
    * otherwise. */
  method WaitForContainerToFinish(container: Container, osEnviron: map<string, string>)
    returns (r: Result<(), Error>, feedback: seq<nat>)
    requires container.Valid()
    requires exists i :: container.reloads <= i < |container.statuses| && container.statuses[i] == STATUS_EXITED
    modifies container
    ensures container.Valid() && container.status == STATUS_EXITED
    ensures container.reloads == FirstExit(container.statuses, old(container.reloads))
    ensures container.removed == old(container.removed)
    ensures feedback == FeedbackTimes(container.reloads - old(container.reloads))
    ensures r == ExitOutcome(container.exitCode, osEnviron, container.shortId)
  {
    ghost var start := container.reloads;
    ghost var exit := FirstExit(container.statuses, start);
    var elapsed: nat := 0;
    feedback := [];
    while container.status != STATUS_EXITED
      invariant container.Valid() && start <= container.reloads <= exit
      invariant container.removed == old(container.removed)
      invariant elapsed == CONTAINER_POLL_INTERVAL * (container.reloads - start)
      invariant feedback == FeedbackTimes(container.reloads - start)
      decreases exit - container.reloads
    {
      elapsed := elapsed + CONTAINER_POLL_INTERVAL;
      if elapsed % FEEDBACK_IN_SECONDS == 0 {
        feedback := feedback + [elapsed];
      }
      container.Reload();
    }
    if container.exitCode != 0 {
      var logFile := LogFile(osEnviron, container.shortId);
      if logFile.Err? {
        return Err(logFile.error), feedback;
      }
      return Err(ContainerFailed(logFile.value)), feedback;
    }
    r := Ok(());
  }

  /** Remove the container, swallowing (and only logging) a refusal. */
  method RemoveContainer(container: Container)
    requires container.Valid()
    modifies container
    ensures container.Valid() && container.reloads == old(container.reloads)
    ensures container.removed == (old(container.removed) || container.removable)
  {
    var _ := container.Remove();
  }

  /** The build of one Lambda function: compute the environment, let the
    * container (started with it) run to completion, then remove it.  A failed
    * build raises before the removal, so its container is left behind. */
  method BuildLambdaFunction(entries: seq<string>, runtime: string, versionHash: string,
                             buildTime: string, dependenciesSha1: string, cacheVersion: Option<string>,
                             container: Container, osEnviron: map<string, string>)
    returns (r: Result<map<string, string>, Error>)
    requires container.Valid()
    requires exists i :: container.reloads <= i < |container.statuses| && container.statuses[i] == STATUS_EXITED
    modifies container
    ensures var environment := BuildEnvironment(entries, runtime, versionHash, buildTime, dependenciesSha1, cacheVersion);
      if environment.Err? then r == environment && unchanged(container)
      else
        && r == (if container.exitCode == 0 then environment
                 else Err(ExitOutcome(container.exitCode, osEnviron, container.shortId).error))
        && container.reloads == FirstExit(container.statuses, old(container.reloads))
    ensures container.removed == (old(container.removed) || (r.Ok? && container.removable))
  {
    var environment := BuildEnvironment(entries, runtime, versionHash, buildTime, dependenciesSha1, cacheVersion);
    if environment.Err? {
      return environment;
    }
    var finished, _ := WaitForContainerToFinish(container, osEnviron);
    if finished.Err? {
      return Err(finished.error);
    }
    RemoveContainer(container);
    r := environment;
  }
}
