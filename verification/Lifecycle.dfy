/**
 Daemon lifecycle (pkg/lsp/lifecycle.go, process_identity.go, daemon_state.go):
 state files by key, processes that come and go while pids are used again, and
 the decisions to reuse, start or stop a daemon. What the operating system, the
 sockets and the clock answer at each check is given to each call.
 */
module Lifecycle {
  import opened Wrappers
  import opened Text
  import opened EnvOverrides

  /** The processes at one moment: the start id of each living pid, and the pids whose start id cannot be read. */
  datatype Os = Os(procs: map<int, string>, unreadable: set<int>, supported: bool)

  datatype IdentityError = Unsupported | Unreadable

  predicate ProcessAlive(os: Os, pid: int) {
    pid > 0 && pid in os.procs
  }

  function ProcessStartID(os: Os, pid: int): Result<string, IdentityError> {
    if !os.supported then Err(Unsupported)
    else if pid <= 0 || pid !in os.procs || pid in os.unreadable then Err(Unreadable)
    else Ok(os.procs[pid])
  }

  datatype Spec = Spec(language: string, binary: string, args: seq<string>)

  /** A state file. Its key and socket path come from the file's own path, whatever was written. */
  datatype LifecycleState = LifecycleState(workspaceRoot: string, language: string, pid: int, binary: string,
                                           args: seq<string>, serverEnv: seq<string>, startID: string, started: int,
                                           lastUsed: int)

  datatype FileContent = Corrupt | Saved(state: LifecycleState)

  datatype Lease = Lease(workspaceRoot: string, language: string, stateKey: string, socketPath: string, pid: int,
                         binary: string, args: seq<string>, reused: bool)

  datatype LeaseError = WriteFailed | IdentityFailed | Cancelled | BinaryMissing | DataDirFailed | LaunchFailed

  /** stopStateProcess signalled the pid: the start id on record, the one at the check, and the one it hit. */
  datatype Signal = Stopped(pid: int, recorded: string, atCheck: Option<string>,
                            hit: Option<string>) | LaunchUndone(pid: int)

  datatype Launch = Launch(pid: int, startID: string, binary: string, args: seq<string>, serverEnv: seq<string>)

  datatype Config = Config(idleTimeout: int, ownPid: int, ownGroup: int)

  datatype World = World(files: map<string, FileContent>, signals: seq<Signal>, launches: seq<Launch>,
                         adopted: set<(int, string)>)

  // --- identity ---

  predicate HasStrongProcessIdentity(state: LifecycleState) {
    TrimSpace(state.startID) != ""
  }

  predicate ProcessMatchesState(os: Os, state: LifecycleState) {
    state.pid > 0 && HasStrongProcessIdentity(state) && ProcessStartID(os, state.pid) == Ok(TrimSpace(state.startID))
  }

  /** refreshProcessStartID: takes over the start id of whatever now has the pid. */
  function RefreshProcessStartID(os: Os, state: LifecycleState): Option<LifecycleState> {
    if state.pid <= 0 then Some(state)
    else
      match ProcessStartID(os, state.pid)
      case Ok(id) => Some(state.(startID := id))
      case Err(Unsupported) => Some(state)
      case Err(Unreadable) => None
  }

  /** Nobody signals init, itself or its own group. */
  predicate MaySignal(cfg: Config, pid: int) {
    pid > 1 && pid != cfg.ownPid && pid != cfg.ownGroup
  }

  predicate IsIdle(cfg: Config, state: LifecycleState, now: int) {
    var reference := if state.lastUsed != 0 then state.lastUsed else state.started;
    cfg.idleTimeout > 0 && reference != 0 && now - reference >= cfg.idleTimeout
  }

  // --- state files ---

  function SocketPath(key: string): string {
    key + ".sock"
  }

  /** What writing and reading a state do to it. */
  ghost function Normal(state: LifecycleState): LifecycleState {
    state.(serverEnv := Normalized(state.serverEnv), startID := TrimSpace(state.startID))
  }

  lemma NormalIsFixed(state: LifecycleState)
    ensures Normal(Normal(state)) == Normal(state)
  {
    NormalizedIsFixed(state.serverEnv);
    TrimSpaceTrims(state.startID);
    TrimSpaceOfTrimmed(TrimSpace(state.startID));
  }

  function LeaseFrom(key: string, state: LifecycleState, reused: bool): Lease {
    Lease(state.workspaceRoot, state.language, key, SocketPath(key), state.pid, state.binary, state.args, reused)
  }

  // --- stopping ---

  /** The answers of one stop: at the liveness check, at the identity check and when the signal arrives. */
  datatype StopEnv = StopEnv(atAlive: Os, atCheck: Os, atKill: Os, killOk: bool, removed: bool, restRemoved: bool)

  function Occupant(os: Os, pid: int): Option<string> {
    if pid in os.procs then Some(os.procs[pid]) else None
  }

  function Removed(files: map<string, FileContent>, key: string, removed: bool): map<string, FileContent> {
    if removed then files - {key} else files
  }

  predicate Signals(cfg: Config, state: LifecycleState, env: StopEnv) {
    && HasStrongProcessIdentity(state) && ProcessAlive(env.atAlive, state.pid)
       && ProcessMatchesState(env.atCheck, state)
    && MaySignal(cfg, state.pid)
  }

  function StopSignal(state: LifecycleState, env: StopEnv): Signal {
    Stopped(state.pid, TrimSpace(state.startID), Occupant(env.atCheck, state.pid), Occupant(env.atKill, state.pid))
  }

  function StopRun(w: World, cfg: Config, key: string, state: LifecycleState, env: StopEnv): World {
    w.(files := Removed(w.files, key, env.removed),
       signals := if Signals(cfg, state, env)
                  then w.signals + [StopSignal(state, env)] else w.signals)
  }

  function StopOk(cfg: Config, state: LifecycleState, env: StopEnv): bool {
    (Signals(cfg, state, env) ==> env.killOk) && env.removed && env.restRemoved
  }

  /** Stop and StopByKey, once the key is known. */
  ghost function StopByKeyRun(w: World, cfg: Config, key: string, env: StopEnv): World {
    if key !in w.files then w
    else
      match w.files[key]
      case Corrupt => w.(files := Removed(w.files, key, env.removed))
      case Saved(raw) => StopRun(w, cfg, key, Normal(raw), env)
  }

  /** One entry of ShutdownIdle's listing; the file is read again, and may be gone by then. */
  ghost function ShutdownOne(w: World, cfg: Config, key: string, now: int, env: StopEnv): World {
    if key !in w.files || w.files[key] == Corrupt then w.(files := Removed(w.files, key, env.removed))
    else if IsIdle(cfg, Normal(w.files[key].state), now) then StopRun(w, cfg, key, Normal(w.files[key].state), env)
    else w
  }

  ghost function ShutdownIdleRun(w: World, cfg: Config, keys: seq<string>, now: int, envs: seq<StopEnv>): World
    requires |keys| == |envs|
  {
    if keys == [] then w
    else
      ShutdownOne(ShutdownIdleRun(w, cfg, keys[..|keys| - 1], now, envs[..|keys| - 1]), cfg, keys[|keys| - 1], now,
                  envs[|keys| - 1])
  }

  /** ShutdownIdle reports an error when one of its stops does. */
  ghost function ShutdownIdleOk(w: World, cfg: Config, keys: seq<string>, now: int, envs: seq<StopEnv>): bool
    requires |keys| == |envs|
  {
    keys != [] ==>
      var n := |keys| - 1;
      var t := ShutdownIdleRun(w, cfg, keys[..n], now, envs[..n]);
      && ShutdownIdleOk(w, cfg, keys[..n], now, envs[..n])
      && (keys[n] in t.files && t.files[keys[n]].Saved? && IsIdle(cfg, Normal(t.files[keys[n]].state), now) ==>
            StopOk(cfg, Normal(t.files[keys[n]].state), envs[n]))
  }

  // --- Ensure ---

  /** The answers of one Ensure. */
  datatype EnsureEnv = EnsureEnv(now: int, os: Os, healthy: bool, atRefresh: Os, stop: StopEnv, writeOk: bool,
                                 cancelled: bool, binaryFound: bool, dataDirOk: bool, launched: Option<(int, string)>)

  /** What Ensure decides about the state it finds. */
  datatype Verdict = Reuse(state: LifecycleState) | Stop | Remove | GiveUp(error: LeaseError) | Start

  ghost function Judge(w: World, cfg: Config, key: string, spec: Spec, desired: seq<string>, env: EnsureEnv): Verdict {
    if key !in w.files then Start
    else if w.files[key] == Corrupt then Remove
    else
      var state := Normal(w.files[key].state);
      if state.serverEnv != desired || state.args != spec.args || IsIdle(cfg, state, env.now) then Stop
      else if HasStrongProcessIdentity(state) then
        if !ProcessMatchesState(env.os, state) then Remove
        else if env.healthy then Reuse(state.(lastUsed := env.now))
        else Stop
      else if ProcessAlive(env.os, state.pid) && env.healthy then
        match RefreshProcessStartID(env.atRefresh, state.(lastUsed := env.now))
        case None => GiveUp(IdentityFailed)
        case Some(refreshed) => Reuse(refreshed)
      else Remove
  }

  function DaemonArgs(key: string, spec: Spec): seq<string> {
    if TrimSpace(ToLower(spec.binary)) == "jdtls" then spec.args + ["-data", "jdtls-data-" + key] else spec.args
  }

  function NewState(root: string, spec: Spec, desired: seq<string>, now: int, launched: (int, string)): LifecycleState {
    LifecycleState(root, spec.language, launched.0, spec.binary, spec.args, desired, TrimSpace(launched.1), now, now)
  }

  ghost function LaunchRun(w: World, key: string, root: string, spec: Spec, desired: seq<string>, cfg: Config,
                           env: EnsureEnv)
    : (World, Result<Lease, LeaseError>)
  {
    if env.cancelled then (w, Err(Cancelled))
    else if !env.binaryFound then (w, Err(BinaryMissing))
    else if TrimSpace(ToLower(spec.binary)) == "jdtls" && !env.dataDirOk then (w, Err(DataDirFailed))
    else
      match env.launched
      case None => (w, Err(LaunchFailed))
      case Some(l) =>
        var state := NewState(root, spec, desired, env.now, l);
        var w' := w.(launches :=
                     w.launches + [Launch(l.0, state.startID, spec.binary, DaemonArgs(key, spec), desired)]);
        if env.writeOk then (w'.(files := w.files[key := Saved(Normal(state))]), Ok(LeaseFrom(key, state, false)))
        else (w'.(signals := if MaySignal(cfg, l.0) then w.signals + [LaunchUndone(l.0)] else w.signals),
              Err(WriteFailed))
  }

  /** What Ensure does about the state it finds, and what it returns for it unless a daemon is to be started. */
  ghost function ReuseRun(w: World, cfg: Config, key: string, spec: Spec, desired: seq<string>, env: EnsureEnv)
    : (World, Option<Result<Lease, LeaseError>>)
  {
    match Judge(w, cfg, key, spec, desired, env)
    case Reuse(state) =>
      if env.writeOk then (Recorded(w, key, state), Some(Ok(LeaseFrom(key, state, true))))
        else (w, Some(Err(WriteFailed)))
    case GiveUp(error) => (w, Some(Err(error)))
    case Stop =>
      (if key in w.files && w.files[key].Saved? then StopRun(w, cfg, key, Normal(w.files[key].state), env.stop)
       else w, None)
    case Remove => (w.(files := Removed(w.files, key, env.stop.removed)), None)
    case Start => (w, None)
  }

  ghost function EnsureRun(w: World, cfg: Config, key: string, root: string, spec: Spec, desired: seq<string>,
                           env: EnsureEnv)
    : (World, Result<Lease, LeaseError>)
  {
    var (w', reused) := ReuseRun(w, cfg, key, spec, desired, env);
    match reused
    case Some(r) => (w', r)
    case None => LaunchRun(w', key, root, spec, desired, cfg, env)
  }

  /** Is this a state that the decision does not reject for its environment, arguments or age? */
  ghost predicate MayKeep(w: World, cfg: Config, key: string, spec: Spec, desired: seq<string>, now: int) {
    && key in w.files && w.files[key].Saved?
    && var state := Normal(w.files[key].state);
    state.serverEnv == desired && state.args == spec.args && !IsIdle(cfg, state, now)
  }

  lemma IdentifiedRun(w: World, cfg: Config, key: string, spec: Spec, desired: seq<string>, env: EnsureEnv)
    requires MayKeep(w, cfg, key, spec, desired, env.now) && HasStrongProcessIdentity(Normal(w.files[key].state))
    ensures var state := Normal(w.files[key].state);
            var used := state.(lastUsed := env.now);
            ReuseRun(w, cfg, key, spec, desired, env) ==
              if !ProcessMatchesState(env.os, state) then (w.(files := Removed(w.files, key, env.stop.removed)), None)
              else if !env.healthy then (StopRun(w, cfg, key, state, env.stop), None)
              else if env.writeOk then (Recorded(w, key, used), Some(Ok(LeaseFrom(key, used, true))))
              else (w, Some(Err(WriteFailed)))
  {
  }

  lemma AdoptingRun(w: World, cfg: Config, key: string, spec: Spec, desired: seq<string>, env: EnsureEnv)
    requires MayKeep(w, cfg, key, spec, desired, env.now) && !HasStrongProcessIdentity(Normal(w.files[key].state))
    requires ProcessAlive(env.os, Normal(w.files[key].state).pid) && env.healthy
    ensures ReuseRun(w, cfg, key, spec, desired, env) ==
            match RefreshProcessStartID(env.atRefresh, Normal(w.files[key].state).(lastUsed := env.now))
            case None => (w, Some(Err(IdentityFailed)))
            case Some(refreshed) =>
              if env.writeOk then (Recorded(w, key, refreshed), Some(Ok(LeaseFrom(key, refreshed, true))))
              else (w, Some(Err(WriteFailed)))
  {
  }

  /** Normalising neither gives a state an identity nor takes it away. */
  lemma NormalIsStrong(state: LifecycleState)
    ensures HasStrongProcessIdentity(Normal(state)) <==> HasStrongProcessIdentity(state)
    ensures TrimSpace(Normal(state).startID) == TrimSpace(state.startID)
  {
    TrimSpaceTrims(state.startID);
    TrimSpaceOfTrimmed(TrimSpace(state.startID));
  }

  /** The state of a reused daemon is written back; a start id it did not have before is now an adopted one. */
  ghost function Recorded(w: World, key: string, state: LifecycleState): World
  {
    w.(files := w.files[key := Saved(Normal(state))],
       adopted := if key in w.files && w.files[key].Saved? && !HasStrongProcessIdentity(w.files[key].state)
                     && HasStrongProcessIdentity(state)
                  then w.adopted + {(state.pid, TrimSpace(state.startID))} else w.adopted)
  }

  // --- the object ---

  class LifecycleManager {
    const cfg: Config
    var files: map<string, FileContent>
    var signals: seq<Signal>
    var launches: seq<Launch>
    ghost var adopted: set<(int, string)>

    ghost function Snapshot(): World
      reads this
    {
      World(files, signals, launches, adopted)
    }

    constructor (cfg: Config, files: map<string, FileContent>)
      ensures Snapshot() == World(files, [], [], {}) && this.cfg == cfg
    {
      this.cfg := cfg;
      this.files, signals, launches, adopted := files, [], [], {};
    }

    /** readStateFile: the normalised state, or an error that is or is not "no such file". */
    method ReadStateFile(key: string) returns (r: Result<LifecycleState, bool>)
      ensures key !in files ==> r == Err(true)
      ensures key in files && files[key] == Corrupt ==> r == Err(false)
      ensures key in files && files[key].Saved? ==> r == Ok(Normal(files[key].state))
    {
      if key !in files {
        return Err(true);
      }
      match files[key] {
        case Corrupt => return Err(false);
        case Saved(state) =>
          var env := NormalizeEnvOverrides(state.serverEnv);
          return Ok(state.(serverEnv := env, startID := TrimSpace(state.startID)));
      }
    }

    method WriteStateFile(key: string, state: LifecycleState, ok: bool)
      modifies this`files
      ensures files == if ok then old(files)[key := Saved(Normal(state))] else old(files)
    {
      if ok {
        var env := NormalizeEnvOverrides(state.serverEnv);
        files := files[key := Saved(state.(serverEnv := env, startID := TrimSpace(state.startID)))];
      }
    }

    method RemoveStateArtifacts(key: string, removed: bool)
      modifies this`files
      ensures files == Removed(old(files), key, removed)
    {
      if removed {
        files := files - {key};
      }
    }

    method StopStateProcess(key: string, state: LifecycleState, env: StopEnv) returns (ok: bool)
      modifies this
      ensures Snapshot() == StopRun(old(Snapshot()), cfg, key, state, env) && ok == StopOk(cfg, state, env)
    {
      ok := true;
      if HasStrongProcessIdentity(state) && ProcessAlive(env.atAlive, state.pid)
        && ProcessMatchesState(env.atCheck, state) {
        if MaySignal(cfg, state.pid) {
          signals := signals + [StopSignal(state, env)];
          ok := env.killOk;
        }
      }
      RemoveStateArtifacts(key, env.removed);
      ok := ok && env.removed && env.restRemoved;
    }

    method StopByKey(key: string, env: StopEnv) returns (ok: bool)
      modifies this
      ensures Snapshot() == StopByKeyRun(old(Snapshot()), cfg, key, env)
      ensures ok == (key in old(files) && old(files)[key].Saved? ==> StopOk(cfg, Normal(old(files)[key].state), env))
    {
      var read := ReadStateFile(key);
      match read {
        case Err(missing) =>
          if !missing {
            RemoveStateArtifacts(key, env.removed);
          }
          ok := true;
        case Ok(state) =>
          ok := StopStateProcess(key, state, env);
      }
    }

    method ShutdownIdle(keys: seq<string>, now: int, envs: seq<StopEnv>) returns (ok: bool)
      requires |keys| == |envs|
      modifies this
      ensures Snapshot() == ShutdownIdleRun(old(Snapshot()), cfg, keys, now, envs)
      ensures ok == ShutdownIdleOk(old(Snapshot()), cfg, keys, now, envs)
    {
      ok := true;
      for i := 0 to |keys|
        invariant Snapshot() == ShutdownIdleRun(old(Snapshot()), cfg, keys[..i], now, envs[..i])
        invariant ok == ShutdownIdleOk(old(Snapshot()), cfg, keys[..i], now, envs[..i])
      {
        assert keys[..i + 1][..i] == keys[..i] && envs[..i + 1][..i] == envs[..i];
        var read := ReadStateFile(keys[i]);
        match read {
          case Err(_) => RemoveStateArtifacts(keys[i], envs[i].removed);
          case Ok(state) =>
            if IsIdle(cfg, state, now) {
              var stopped := StopStateProcess(keys[i], state, envs[i]);
              ok := ok && stopped;
            }
        }
      }
      assert keys[..|keys|] == keys && envs[..|keys|] == envs;
    }

    /** Reuses a daemon that was recorded without a start id: the id is taken from the process that has the pid now. */
    method Adopt(key: string, used: LifecycleState, env: EnsureEnv) returns (r: Result<Lease, LeaseError>)
      requires key in files && files[key].Saved? && !HasStrongProcessIdentity(files[key].state)
      requires !HasStrongProcessIdentity(used)
      modifies this
      ensures match RefreshProcessStartID(env.atRefresh, used)
              case None => Snapshot() == old(Snapshot()) && r == Err(IdentityFailed)
              case Some(refreshed) =>
                if env.writeOk then Snapshot() == Recorded(old(Snapshot()), key, refreshed)
                  && r == Ok(LeaseFrom(key, refreshed, true))
                else Snapshot() == old(Snapshot()) && r == Err(WriteFailed)
    {
      var refreshed := RefreshProcessStartID(env.atRefresh, used);
      if refreshed.None? {
        return Err(IdentityFailed);
      }
      WriteStateFile(key, refreshed.value, env.writeOk);
      if !env.writeOk {
        return Err(WriteFailed);
      }
      if HasStrongProcessIdentity(refreshed.value) {
        adopted := adopted + {(refreshed.value.pid, TrimSpace(refreshed.value.startID))};
      }
      r := Ok(LeaseFrom(key, refreshed.value, true));
    }

    /** Reuses a daemon that was recorded with a start id, when that is still the process and its socket answers. */
    method ReuseIdentified(key: string, state: LifecycleState, env: EnsureEnv)
      returns (r: Option<Result<Lease, LeaseError>>)
      requires key in files && files[key].Saved? && HasStrongProcessIdentity(files[key].state)
      modifies this
      ensures if !ProcessMatchesState(env.os, state) then
                Snapshot() == old(Snapshot()).(files := Removed(old(files), key, env.stop.removed)) && r == None
              else if !env.healthy then
                Snapshot() == StopRun(old(Snapshot()), cfg, key, state, env.stop) && r == None
              else if env.writeOk then
                && Snapshot() == Recorded(old(Snapshot()), key, state.(lastUsed := env.now))
                && r == Some(Ok(LeaseFrom(key, state, true)))
              else
                Snapshot() == old(Snapshot()) && r == Some(Err(WriteFailed))
    {
      r := None;
      if !ProcessMatchesState(env.os, state) {
        RemoveStateArtifacts(key, env.stop.removed);
      } else if !env.healthy {
        var _ := StopStateProcess(key, state, env.stop);
      } else {
        var used := state.(lastUsed := env.now);
        WriteStateFile(key, used, env.writeOk);
        r := Some(if env.writeOk then Ok(LeaseFrom(key, used, true)) else Err(WriteFailed));
      }
    }

    /** What becomes of a state that was read: stopped, reused, removed, or taken over. */
    method ReuseSaved(key: string, state: LifecycleState, spec: Spec, desired: seq<string>,
                      env: EnsureEnv) returns (r: Option<Result<Lease, LeaseError>>)
      requires key in files && files[key].Saved? && state == Normal(files[key].state)
      modifies this
      ensures (Snapshot(), r) == ReuseRun(old(Snapshot()), cfg, key, spec, desired, env)
    {
      ghost var w := Snapshot();
      r := None;
      NormalIsStrong(files[key].state);
      if state.serverEnv != desired || state.args != spec.args || IsIdle(cfg, state, env.now) {
        assert Judge(w, cfg, key, spec, desired, env) == Stop;
        var _ := StopStateProcess(key, state, env.stop);
      } else if HasStrongProcessIdentity(state) {
        IdentifiedRun(w, cfg, key, spec, desired, env);
        r := ReuseIdentified(key, state, env);
      } else if ProcessAlive(env.os, state.pid) && env.healthy {
        AdoptingRun(w, cfg, key, spec, desired, env);
        var adoption := Adopt(key, state.(lastUsed := env.now), env);
        r := Some(adoption);
      } else {
        assert Judge(w, cfg, key, spec, desired, env) == Remove;
        RemoveStateArtifacts(key, env.stop.removed);
      }
    }

    /**
     The part of Ensure that looks at the state it finds: a lease, an error, or
     nothing when a daemon is to be started.
     */
    method TryReuse(key: string, spec: Spec, desired: seq<string>, env: EnsureEnv) returns (r: Option<Result<Lease,
                    LeaseError>>)
      modifies this
      ensures (Snapshot(), r) == ReuseRun(old(Snapshot()), cfg, key, spec, desired, env)
    {
      r := None;
      var read := ReadStateFile(key);
      match read {
        case Err(missing) =>
          if !missing {
            RemoveStateArtifacts(key, env.stop.removed);
          }
        case Ok(state) =>
          r := ReuseSaved(key, state, spec, desired, env);
      }
    }

    /** The part of Ensure that starts a daemon. */
    method StartDaemon(key: string, root: string, spec: Spec, desired: seq<string>,
                       env: EnsureEnv) returns (r: Result<Lease, LeaseError>)
      modifies this
      ensures (Snapshot(), r) == LaunchRun(old(Snapshot()), key, root, spec, desired, cfg, env)
    {
      if env.cancelled {
        return Err(Cancelled);
      }
      if !env.binaryFound {
        return Err(BinaryMissing);
      }
      var args := spec.args;
      if TrimSpace(ToLower(spec.binary)) == "jdtls" {
        if !env.dataDirOk {
          return Err(DataDirFailed);
        }
        args := args + ["-data", "jdtls-data-" + key];
      }
      if env.launched.None? {
        return Err(LaunchFailed);
      }
      var (pid, startID) := env.launched.value;
      launches := launches + [Launch(pid, TrimSpace(startID), spec.binary, args, desired)];
      var state := LifecycleState(root, spec.language, pid, spec.binary, spec.args, desired, TrimSpace(startID),
                                  env.now, env.now);
      WriteStateFile(key, state, env.writeOk);
      if !env.writeOk {
        if MaySignal(cfg, pid) {
          signals := signals + [LaunchUndone(pid)];
        }
        return Err(WriteFailed);
      }
      r := Ok(LeaseFrom(key, state, false));
    }

    method Ensure(key: string, root: string, spec: Spec, resolved: seq<string>,
                  env: EnsureEnv) returns (r: Result<Lease, LeaseError>)
      modifies this
      ensures (Snapshot(), r) == EnsureRun(old(Snapshot()), cfg, key, root, spec, Normalized(resolved), env)
    {
      var desired := NormalizeEnvOverrides(resolved);
      var reused := TryReuse(key, spec, desired, env);
      if reused.Some? {
        return reused.value;
      }
      r := StartDaemon(key, root, spec, desired, env);
    }
  }
}
