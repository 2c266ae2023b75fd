/**
 What one Ensure does to processes (pkg/lsp/lifecycle.go:271-372), said of the
 state file, of the request and of the answers it gets: which process it
 signals, which it starts, and what its lease says.
 */
module LifecycleEnsure {
  import opened Wrappers
  import opened Text
  import opened EnvOverrides
  import opened Lifecycle

  /** The process of this pid can be seen, and has this start id. */
  predicate IsProcess(os: Os, pid: int, startID: string) {
    os.supported && pid > 0 && pid in os.procs && pid !in os.unreadable && os.procs[pid] == startID
  }

  /** What a daemon was last known to be used at lies back as far as the idle timeout. */
  predicate LongUnused(cfg: Config, state: LifecycleState, now: int) {
    && cfg.idleTimeout > 0
    && if state.lastUsed != 0 then now - state.lastUsed >= cfg.idleTimeout
       else state.started != 0 && now - state.started >= cfg.idleTimeout
  }

  /** The state on record is for another environment or other arguments, or has not been used for long. */
  ghost predicate Outdated(cfg: Config, state: LifecycleState, spec: Spec, desired: seq<string>, now: int) {
    Normalized(state.serverEnv) != desired || state.args != spec.args || LongUnused(cfg, state, now)
  }

  /**
   Ensure stops the process on record: the state is outdated, or its process is
   there and its socket does not answer; and the process is there at the stop, and
   is neither init nor the caller nor its group.
   */
  ghost predicate StopsRecorded(w: World, cfg: Config, key: string, spec: Spec, desired: seq<string>, env: EnsureEnv) {
    && key in w.files && w.files[key].Saved?
    && var state := w.files[key].state;
    var id := TrimSpace(state.startID);
    && id != "" && state.pid > 1 && state.pid != cfg.ownPid && state.pid != cfg.ownGroup
    && (Outdated(cfg, state, spec, desired, env.now) || (IsProcess(env.os, state.pid, id) && !env.healthy))
    && state.pid in env.stop.atAlive.procs && IsProcess(env.stop.atCheck, state.pid, id)
  }

  /** The daemon on record is up to date, its process is there and its socket answers. */
  ghost predicate FindsDaemon(w: World, cfg: Config, key: string, spec: Spec, desired: seq<string>, env: EnsureEnv) {
    && key in w.files && w.files[key].Saved?
    && var state := w.files[key].state;
    var id := TrimSpace(state.startID);
    && !Outdated(cfg, state, spec, desired, env.now) && env.healthy
    && if id != "" then IsProcess(env.os, state.pid, id) else state.pid > 0 && state.pid in env.os.procs
  }

  predicate NeedsDataDir(spec: Spec) {
    TrimSpace(ToLower(spec.binary)) == "jdtls"
  }

  /** Ensure starts a daemon: none is found, and nothing stands in the way. */
  ghost predicate Launches(w: World, cfg: Config, key: string, spec: Spec, desired: seq<string>, env: EnsureEnv) {
    && !FindsDaemon(w, cfg, key, spec, desired, env)
    && !env.cancelled && env.binaryFound && (NeedsDataDir(spec) ==> env.dataDirOk) && env.launched.Some?
  }

  /** The signal that stops the process on record, with what has its pid when it arrives. */
  function StopOf(state: LifecycleState, env: EnsureEnv): Signal {
    var id := TrimSpace(state.startID);
    Stopped(state.pid, id, Some(id),
            if state.pid in env.stop.atKill.procs then Some(env.stop.atKill.procs[state.pid]) else None)
  }

  lemma NormalKeeps(state: LifecycleState)
    ensures var n := Normal(state);
            && n.pid == state.pid && n.args == state.args && n.lastUsed == state.lastUsed && n.started == state.started
            && n.serverEnv == Normalized(state.serverEnv) && TrimSpace(n.startID) == TrimSpace(state.startID)
            && n.startID == TrimSpace(state.startID)
            && n.workspaceRoot == state.workspaceRoot && n.language == state.language && n.binary == state.binary
  {
    NormalIsStrong(state);
  }

  /** Whether a stop signals, in terms of the state as it was written. */
  lemma SignalsOf(cfg: Config, state: LifecycleState, env: EnsureEnv)
    ensures var id := TrimSpace(state.startID);
            Signals(cfg, Normal(state), env.stop) <==>
              && id != "" && state.pid > 1 && state.pid != cfg.ownPid && state.pid != cfg.ownGroup
              && state.pid in env.stop.atAlive.procs && IsProcess(env.stop.atCheck, state.pid, id)
    ensures Signals(cfg, Normal(state), env.stop) ==> StopSignal(Normal(state), env.stop) == StopOf(state, env)
  {
    NormalKeeps(state);
  }

  lemma IdleIsLongUnused(cfg: Config, state: LifecycleState, now: int)
    ensures IsIdle(cfg, Normal(state), now) <==> LongUnused(cfg, state, now)
  {
    NormalKeeps(state);
  }

  /** The decision that Ensure takes about the state it finds. */
  lemma JudgedAs(w: World, cfg: Config, key: string, spec: Spec, desired: seq<string>, env: EnsureEnv)
    requires key in w.files && w.files[key].Saved?
    ensures var state := w.files[key].state;
            var id := TrimSpace(state.startID);
            var verdict := Judge(w, cfg, key, spec, desired, env);
            && (verdict.Stop? <==> Outdated(cfg, state, spec, desired, env.now)
                                   || (id != "" && IsProcess(env.os, state.pid, id) && !env.healthy))
            && (verdict.Reuse? || verdict.GiveUp? <==> FindsDaemon(w, cfg, key, spec, desired, env))
  {
    NormalKeeps(w.files[key].state);
    IdleIsLongUnused(cfg, w.files[key].state, env.now);
  }

  lemma ReuseSignals(w: World, cfg: Config, key: string, spec: Spec, desired: seq<string>, env: EnsureEnv)
    ensures var (t, r) := ReuseRun(w, cfg, key, spec, desired, env);
            && t.launches == w.launches
            && (r.Some? <==> FindsDaemon(w, cfg, key, spec, desired, env))
            && t.signals == w.signals + if StopsRecorded(w, cfg, key, spec, desired, env)
                                        then [StopOf(w.files[key].state, env)] else []
  {
    if key in w.files && w.files[key].Saved? {
      JudgedAs(w, cfg, key, spec, desired, env);
      SignalsOf(cfg, w.files[key].state, env);
    }
  }

  /** The arguments a daemon is started with. */
  function LaunchArgs(key: string, spec: Spec): seq<string> {
    spec.args + if NeedsDataDir(spec) then ["-data", "jdtls-data-" + key] else []
  }

  lemma LaunchStarts(w: World, cfg: Config, key: string, root: string, spec: Spec, desired: seq<string>,
                     env: EnsureEnv)
    ensures var (t, r) := LaunchRun(w, key, root, spec, desired, cfg, env);
            if !env.cancelled && env.binaryFound && (NeedsDataDir(spec) ==> env.dataDirOk) && env.launched.Some? then
              var (pid, id) := env.launched.value;
              && t.launches == w.launches + [Launch(pid, TrimSpace(id), spec.binary, LaunchArgs(key, spec), desired)]
              && t.signals == w.signals + (if !env.writeOk && MaySignal(cfg, pid) then [LaunchUndone(pid)] else [])
              && r == if env.writeOk
                      then Ok(Lease(root, spec.language, key, key + ".sock", pid, spec.binary, spec.args, false))
                      else Err(WriteFailed)
            else t == w && r.Err?
  {
    assert spec.args + [] == spec.args && w.signals + [] == w.signals;
  }

  /** What Ensure returns for a daemon that it found. */
  lemma ReuseLease(w: World, cfg: Config, key: string, spec: Spec, desired: seq<string>, env: EnsureEnv)
    ensures var r := ReuseRun(w, cfg, key, spec, desired, env).1;
            r.Some? && r.value.Ok? ==>
              && key in w.files && w.files[key].Saved?
              && var state := w.files[key].state;
              r.value.value == Lease(state.workspaceRoot, state.language, key, key + ".sock", state.pid, state.binary,
                                     spec.args, true)
  {
    if Judge(w, cfg, key, spec, desired, env).Reuse? {
      ReusedState(w, cfg, key, spec, desired, env);
    }
  }

  /** The state that Ensure takes up is the one on record, but for its time of use and perhaps its start id. */
  lemma ReusedState(w: World, cfg: Config, key: string, spec: Spec, desired: seq<string>, env: EnsureEnv)
    requires Judge(w, cfg, key, spec, desired, env).Reuse?
    ensures key in w.files && w.files[key].Saved?
    ensures var state := w.files[key].state;
            var used := Judge(w, cfg, key, spec, desired, env).state;
            && used.workspaceRoot == state.workspaceRoot && used.language == state.language && used.pid == state.pid
            && used.binary == state.binary && used.args == state.args == spec.args
  {
    NormalKeeps(w.files[key].state);
    RefreshKeeps(env.atRefresh, Normal(w.files[key].state).(lastUsed := env.now));
  }

  lemma RefreshKeeps(os: Os, state: LifecycleState)
    ensures RefreshProcessStartID(os, state).Some? ==>
              exists id :: RefreshProcessStartID(os, state).value == state.(startID := id)
  {
    if RefreshProcessStartID(os, state).Some? {
      var r := RefreshProcessStartID(os, state).value;
      assert r == state.(startID := r.startID);
    }
  }

  lemma EnsureInTwo(w: World, cfg: Config, key: string, root: string, spec: Spec, desired: seq<string>, env: EnsureEnv)
    ensures var (t, r) := ReuseRun(w, cfg, key, spec, desired, env);
            EnsureRun(w, cfg, key, root, spec, desired, env) ==
              if r.Some? then (t, r.value) else LaunchRun(t, key, root, spec, desired, cfg, env)
  {
  }

  /**
   Which processes an Ensure signals: the one on record, exactly when it is to be
   stopped and is still that process; and the one it has just started, exactly
   when that cannot be recorded. Nothing else is signalled.
   */
  lemma EnsureSignalsExactly(w: World, cfg: Config, key: string, root: string, spec: Spec, resolved: seq<string>,
                             env: EnsureEnv)
    ensures var desired := Normalized(resolved);
            EnsureRun(w, cfg, key, root, spec, desired, env).0.signals ==
              w.signals
              + (if StopsRecorded(w, cfg, key, spec, desired, env) then [StopOf(w.files[key].state, env)] else [])
              + (if Launches(w, cfg, key, spec, desired, env) && !env.writeOk && MaySignal(cfg, env.launched.value.0)
                 then [LaunchUndone(env.launched.value.0)] else [])
  {
    var desired := Normalized(resolved);
    ReuseSignals(w, cfg, key, spec, desired, env);
    LaunchStarts(ReuseRun(w, cfg, key, spec, desired, env).0, cfg, key, root, spec, desired, env);
  }

  /**
   An Ensure starts a daemon exactly when it finds none that it may use and
   nothing stands in the way: with the binary and the arguments of the request,
   the data directory that jdtls needs, and the environment asked for. The lease
   is then of the new process.
   */
  lemma EnsureLaunchesExactly(w: World, cfg: Config, key: string, root: string, spec: Spec, resolved: seq<string>,
                              env: EnsureEnv)
    ensures var desired := Normalized(resolved);
            var (t, r) := EnsureRun(w, cfg, key, root, spec, desired, env);
            if Launches(w, cfg, key, spec, desired, env) then
              var (pid, id) := env.launched.value;
              && t.launches == w.launches + [Launch(pid, TrimSpace(id), spec.binary, LaunchArgs(key, spec), desired)]
              && r == if env.writeOk
                      then Ok(Lease(root, spec.language, key, key + ".sock", pid, spec.binary, spec.args, false))
                      else Err(WriteFailed)
            else t.launches == w.launches && (r.Ok? ==> r.value.reused)
  {
    var desired := Normalized(resolved);
    EnsureInTwo(w, cfg, key, root, spec, desired, env);
    ReuseSignals(w, cfg, key, spec, desired, env);
    ReuseLease(w, cfg, key, spec, desired, env);
    LaunchStarts(ReuseRun(w, cfg, key, spec, desired, env).0, cfg, key, root, spec, desired, env);
  }

  /** The lease of a daemon that was found says what is on record of it. */
  lemma ReusedLeaseIsOfRecord(w: World, cfg: Config, key: string, root: string, spec: Spec, resolved: seq<string>,
                              env: EnsureEnv)
    ensures var desired := Normalized(resolved);
            var r := EnsureRun(w, cfg, key, root, spec, desired, env).1;
            FindsDaemon(w, cfg, key, spec, desired, env) && r.Ok? ==>
              var state := w.files[key].state;
              r.value == Lease(state.workspaceRoot, state.language, key, key + ".sock", state.pid, state.binary,
                               spec.args, true)
  {
    var desired := Normalized(resolved);
    EnsureInTwo(w, cfg, key, root, spec, desired, env);
    ReuseSignals(w, cfg, key, spec, desired, env);
    ReuseLease(w, cfg, key, spec, desired, env);
  }

  /** The daemon that was found was recorded without a start id, and none can be read for it now. */
  ghost predicate CannotIdentify(w: World, key: string, env: EnsureEnv) {
    && key in w.files && w.files[key].Saved?
    && var state := w.files[key].state;
    && TrimSpace(state.startID) == "" && env.atRefresh.supported
    && (state.pid !in env.atRefresh.procs || state.pid in env.atRefresh.unreadable)
  }

  lemma GivesUpIff(w: World, cfg: Config, key: string, spec: Spec, desired: seq<string>, env: EnsureEnv)
    ensures Judge(w, cfg, key, spec, desired, env).GiveUp? <==>
              FindsDaemon(w, cfg, key, spec, desired, env) && CannotIdentify(w, key, env)
  {
    if key in w.files && w.files[key].Saved? {
      NormalKeeps(w.files[key].state);
      IdleIsLongUnused(cfg, w.files[key].state, env.now);
      RefreshFails(env.atRefresh, Normal(w.files[key].state), env.now);
    }
  }

  lemma GivesUpFor(w: World, cfg: Config, key: string, spec: Spec, desired: seq<string>, env: EnsureEnv)
    ensures Judge(w, cfg, key, spec, desired, env).GiveUp? ==>
              Judge(w, cfg, key, spec, desired, env) == GiveUp(IdentityFailed)
  {
  }

  lemma RefreshFails(os: Os, state: LifecycleState, now: int)
    ensures RefreshProcessStartID(os, state.(lastUsed := now)).None? <==>
              state.pid > 0 && os.supported && (state.pid !in os.procs || state.pid in os.unreadable)
  {
  }

  lemma FoundFails(w: World, cfg: Config, key: string, spec: Spec, desired: seq<string>, env: EnsureEnv)
    requires FindsDaemon(w, cfg, key, spec, desired, env)
    ensures var (t, r) := ReuseRun(w, cfg, key, spec, desired, env);
            && r.Some? && (r.value.Err? <==> CannotIdentify(w, key, env) || !env.writeOk)
            && (r.value.Err? ==>
                  t.files == w.files
                    && r.value.error == if CannotIdentify(w, key, env) then IdentityFailed else WriteFailed)
  {
    JudgedAs(w, cfg, key, spec, desired, env);
    GivesUpIff(w, cfg, key, spec, desired, env);
    GivesUpFor(w, cfg, key, spec, desired, env);
  }

  lemma NotFoundRemoves(w: World, cfg: Config, key: string, spec: Spec, desired: seq<string>, env: EnsureEnv)
    requires !FindsDaemon(w, cfg, key, spec, desired, env)
    ensures var (t, r) := ReuseRun(w, cfg, key, spec, desired, env);
            r.None? && t.files == if env.stop.removed then w.files - {key} else w.files
  {
    if key in w.files && w.files[key].Saved? {
      JudgedAs(w, cfg, key, spec, desired, env);
    } else if key !in w.files {
      assert w.files - {key} == w.files;
    }
  }

  /**
   When an Ensure fails: a daemon that was found stays on record, and could not be
   identified or not be recorded; else what was on record is gone, if it could be
   removed, and the first thing that stood in the way is the error.
   */
  lemma EnsureFailsExactly(w: World, cfg: Config, key: string, root: string, spec: Spec, resolved: seq<string>,
                           env: EnsureEnv)
    ensures var desired := Normalized(resolved);
            var (t, r) := EnsureRun(w, cfg, key, root, spec, desired, env);
            if FindsDaemon(w, cfg, key, spec, desired, env) then
              && (r.Err? <==> CannotIdentify(w, key, env) || !env.writeOk)
              && (r.Err? ==> t.files == w.files
                             && r.error == if CannotIdentify(w, key, env) then IdentityFailed else WriteFailed)
            else
              && (r.Err? <==> !Launches(w, cfg, key, spec, desired, env) || !env.writeOk)
              && (r.Err? ==>
                    && t.files == (if env.stop.removed then w.files - {key} else w.files)
                    && r.error == if env.cancelled then Cancelled
                                  else if !env.binaryFound then BinaryMissing
                                  else if NeedsDataDir(spec) && !env.dataDirOk then DataDirFailed
                                  else if env.launched.None? then LaunchFailed
                                  else WriteFailed)
  {
    var desired := Normalized(resolved);
    EnsureInTwo(w, cfg, key, root, spec, desired, env);
    if FindsDaemon(w, cfg, key, spec, desired, env) {
      FoundFails(w, cfg, key, spec, desired, env);
    } else {
      NotFoundRemoves(w, cfg, key, spec, desired, env);
    }
    LaunchFails(ReuseRun(w, cfg, key, spec, desired, env).0, cfg, key, root, spec, desired, env);
  }

  lemma LaunchFails(w: World, cfg: Config, key: string, root: string, spec: Spec, desired: seq<string>, env: EnsureEnv)
    ensures var (t, r) := LaunchRun(w, key, root, spec, desired, cfg, env);
            r.Err? ==>
              && t.files == w.files
              && r.error == if env.cancelled then Cancelled
                            else if !env.binaryFound then BinaryMissing
                            else if NeedsDataDir(spec) && !env.dataDirOk then DataDirFailed
                            else if env.launched.None? then LaunchFailed
                            else WriteFailed
  {
  }
}
