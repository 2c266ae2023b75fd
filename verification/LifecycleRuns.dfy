/**
 Whole histories of the lifecycle: which processes are ever signalled, when a
 daemon is reused, and what an operation leaves alone.
 */
module LifecycleRuns {
  import opened Wrappers
  import opened Text
  import opened EnvOverrides
  import opened Lifecycle

  /** One operation, with the answers it gets, or a daemon noting in its state file that it was used. */
  datatype Op =
    | Ensure(key: string, root: string, spec: Spec, resolved: seq<string>, env: EnsureEnv)
    | StopByKey(key: string, stop: StopEnv)
    | ShutdownIdle(keys: seq<string>, now: int, envs: seq<StopEnv>)
    | Touch(key: string, now: int)

  predicate WellFormed(op: Op) {
    op.ShutdownIdle? ==> |op.keys| == |op.envs|
  }

  ghost function TouchRun(w: World, key: string, now: int): World {
    if key in w.files && w.files[key].Saved? then
      w.(files := w.files[key := Saved(Normal(w.files[key].state).(lastUsed := now))])
    else w
  }

  ghost function Perform(w: World, cfg: Config, op: Op): World
    requires WellFormed(op)
  {
    match op
    case Ensure(key, root, spec, resolved, env) => EnsureRun(w, cfg, key, root, spec, Normalized(resolved), env).0
    case StopByKey(key, env) => StopByKeyRun(w, cfg, key, env)
    case ShutdownIdle(keys, now, envs) => ShutdownIdleRun(w, cfg, keys, now, envs)
    case Touch(key, now) => TouchRun(w, key, now)
  }

  ghost function History(w: World, cfg: Config, ops: seq<Op>): World
    requires forall k :: 0 <= k < |ops| ==> WellFormed(ops[k])
  {
    if ops == [] then w else Perform(History(w, cfg, ops[..|ops| - 1]), cfg, ops[|ops| - 1])
  }

  /** When a state was last used, or when it started if that is not known; zero if neither is. */
  function LastSeen(state: LifecycleState): int {
    if state.lastUsed != 0 then state.lastUsed else state.started
  }

  // --- what an operation leaves alone ---

  predicate Names(op: Op, key: string) {
    match op
    case Ensure(k, _, _, _, _) => k == key
    case StopByKey(k, _) => k == key
    case ShutdownIdle(keys, _, _) => key in keys
    case Touch(k, _) => k == key
  }

  predicate SameEntry(a: map<string, FileContent>, b: map<string, FileContent>, key: string) {
    (key in a <==> key in b) && (key in a && key in b ==> a[key] == b[key])
  }

  lemma {:induction false} ShutdownIdleKeepsOthers(w: World, cfg: Config, keys: seq<string>, now: int,
                                                   envs: seq<StopEnv>, key: string)
    requires |keys| == |envs| && key !in keys
    ensures SameEntry(w.files, ShutdownIdleRun(w, cfg, keys, now, envs).files, key)
  {
    if keys != [] {
      ShutdownIdleKeepsOthers(w, cfg, keys[..|keys| - 1], now, envs[..|keys| - 1], key);
    }
  }

  lemma EnsureKeepsOthers(w: World, cfg: Config, key: string, root: string, spec: Spec, desired: seq<string>,
                          env: EnsureEnv, other: string)
    requires other != key
    ensures SameEntry(w.files, EnsureRun(w, cfg, key, root, spec, desired, env).0.files, other)
  {
    assert SameEntry(w.files, ReuseRun(w, cfg, key, spec, desired, env).0.files, other);
  }

  /** No operation changes the state file of a key it is not about. */
  lemma OtherKeysUntouched(w: World, cfg: Config, op: Op, key: string)
    requires WellFormed(op) && !Names(op, key)
    ensures SameEntry(w.files, Perform(w, cfg, op).files, key)
  {
    match op
    case Ensure(k, root, spec, resolved, env) =>
      EnsureKeepsOthers(w, cfg, k, root, spec, Normalized(resolved), env, key);
    case ShutdownIdle(keys, now, envs) => ShutdownIdleKeepsOthers(w, cfg, keys, now, envs, key);
    case _ =>
  }

  /** Is this file one that ShutdownIdle keeps? */
  ghost predicate InUse(files: map<string, FileContent>, cfg: Config, key: string, now: int) {
    key in files && files[key].Saved? && !IsIdle(cfg, Normal(files[key].state), now)
  }

  lemma ShutdownOneExactly(w: World, cfg: Config, key: string, now: int, env: StopEnv, other: string)
    requires env.removed
    ensures var files := ShutdownOne(w, cfg, key, now, env).files;
            if other == key then key in files <==> InUse(w.files, cfg, key, now) else SameEntry(w.files, files, other)
    ensures InUse(w.files, cfg, key, now) ==> ShutdownOne(w, cfg, key, now, env) == w
  {
  }

  /** When its removals succeed, ShutdownIdle leaves, of the keys it is given, exactly the ones in use, as they were. */
  lemma {:induction false} ShutdownIdleExactly(w: World, cfg: Config, keys: seq<string>, now: int,
                                               envs: seq<StopEnv>, key: string)
    requires |keys| == |envs| && forall k :: 0 <= k < |envs| ==> envs[k].removed
    ensures var files := ShutdownIdleRun(w, cfg, keys, now, envs).files;
            if key in keys && !InUse(w.files, cfg, key, now) then key !in files else SameEntry(w.files, files, key)
  {
    if keys != [] {
      var n := |keys| - 1;
      ShutdownIdleExactly(w, cfg, keys[..n], now, envs[..n], key);
      var t := ShutdownIdleRun(w, cfg, keys[..n], now, envs[..n]);
      ShutdownOneExactly(t, cfg, keys[n], now, envs[n], key);
      assert keys == keys[..n] + [keys[n]];
    }
  }

  // --- which processes are signalled ---

  /** The signal went to a pid whose start id, when checked, was the one on record for it. */
  predicate Checked(cfg: Config, signal: Signal) {
    && MaySignal(cfg, signal.pid)
    && (signal.Stopped? ==> signal.recorded != "" && signal.atCheck == Some(signal.recorded))
  }

  predicate LaunchedAs(w: World, pid: int, startID: string) {
    exists k :: 0 <= k < |w.launches| && w.launches[k].pid == pid && w.launches[k].startID == startID
  }

  predicate RecordedIn(files: map<string, FileContent>, pid: int, startID: string) {
    exists key :: key in files && files[key].Saved? && files[key].state.pid == pid
      && TrimSpace(files[key].state.startID) == startID
  }

  /** The process is one the lifecycle launched, one it adopted, or one on record from the start. */
  ghost predicate Known(w: World, first: map<string, FileContent>, pid: int, startID: string) {
    LaunchedAs(w, pid, startID) || (pid, startID) in w.adopted || RecordedIn(first, pid, startID)
  }

  ghost predicate KnownState(w: World, first: map<string, FileContent>, state: LifecycleState) {
    HasStrongProcessIdentity(state) ==> Known(w, first, state.pid, TrimSpace(state.startID))
  }

  ghost predicate Accounted(w: World, cfg: Config, first: map<string, FileContent>) {
    && (forall key :: key in w.files && w.files[key].Saved? ==> KnownState(w, first, w.files[key].state))
    && (forall k :: 0 <= k < |w.signals| ==> Checked(cfg, w.signals[k]))
    && (forall k :: 0 <= k < |w.signals| && w.signals[k].Stopped? ==>
        Known(w, first, w.signals[k].pid, w.signals[k].recorded))
  }

  /** What is known stays known while launches and adoptions only grow. */
  ghost predicate Grows(w: World, w': World) {
    w.launches <= w'.launches && w.adopted <= w'.adopted
  }

  lemma KnownStays(w: World, w': World, first: map<string, FileContent>, pid: int, startID: string)
    requires Grows(w, w') && Known(w, first, pid, startID)
    ensures Known(w', first, pid, startID)
  {
    if LaunchedAs(w, pid, startID) {
      var k :| 0 <= k < |w.launches| && w.launches[k].pid == pid && w.launches[k].startID == startID;
      assert w'.launches[k] == w.launches[k];
    }
  }

  lemma AccountedStays(w: World, w': World, cfg: Config, first: map<string, FileContent>)
    requires Accounted(w, cfg, first) && Grows(w, w') && w'.signals == w.signals
    requires forall key :: key in w'.files && w'.files[key].Saved? ==>
               (key in w.files && w.files[key] == w'.files[key]) || KnownState(w', first, w'.files[key].state)
    ensures Accounted(w', cfg, first)
  {
    forall key | key in w'.files && w'.files[key].Saved? ensures KnownState(w', first, w'.files[key].state) {
      var state := w'.files[key].state;
      if HasStrongProcessIdentity(state) && key in w.files && w.files[key] == w'.files[key] {
        assert KnownState(w, first, state);
        KnownStays(w, w', first, state.pid, TrimSpace(state.startID));
      }
    }
    forall k | 0 <= k < |w'.signals| && w'.signals[k].Stopped?
      ensures Known(w', first, w'.signals[k].pid, w'.signals[k].recorded)
    {
      KnownStays(w, w', first, w.signals[k].pid, w.signals[k].recorded);
    }
  }

  lemma SignalKeepsAccounts(w: World, w': World, cfg: Config, first: map<string, FileContent>, signal: Signal)
    requires Accounted(w, cfg, first) && w' == w.(signals := w.signals + [signal])
    requires Checked(cfg, signal) && (signal.Stopped? ==> Known(w, first, signal.pid, signal.recorded))
    ensures Accounted(w', cfg, first)
  {
    assert forall pid, id :: Known(w, first, pid, id) <==> Known(w', first, pid, id);
  }

  lemma StopKeepsAccounts(w: World, cfg: Config, first: map<string, FileContent>, key: string, env: StopEnv)
    requires Accounted(w, cfg, first) && key in w.files && w.files[key].Saved?
    ensures Accounted(StopRun(w, cfg, key, Normal(w.files[key].state), env), cfg, first)
  {
    var raw := w.files[key].state;
    var state := Normal(raw);
    RemoveKeepsAccounts(w, cfg, first, key, env.removed);
    if Signals(cfg, state, env) {
      NormalIsStrong(raw);
      assert KnownState(w, first, raw);
      var quiet := w.(files := Removed(w.files, key, env.removed));
      KnownStays(w, quiet, first, state.pid, TrimSpace(raw.startID));
      SignalKeepsAccounts(quiet, StopRun(w, cfg, key, state, env), cfg, first, StopSignal(state, env));
    }
  }

  lemma RemoveKeepsAccounts(w: World, cfg: Config, first: map<string, FileContent>, key: string, removed: bool)
    requires Accounted(w, cfg, first)
    ensures Accounted(w.(files := Removed(w.files, key, removed)), cfg, first)
  {
    AccountedStays(w, w.(files := Removed(w.files, key, removed)), cfg, first);
  }

  lemma RecordKeepsAccounts(w: World, cfg: Config, first: map<string, FileContent>, key: string, state: LifecycleState)
    requires Accounted(w, cfg, first) && key in w.files && w.files[key].Saved?
    requires HasStrongProcessIdentity(w.files[key].state) ==>
               state.pid == w.files[key].state.pid && TrimSpace(state.startID) == TrimSpace(w.files[key].state.startID)
    ensures Accounted(Recorded(w, key, state), cfg, first)
  {
    var w' := Recorded(w, key, state);
    NormalIsStrong(state);
    assert KnownState(w, first, w.files[key].state);
    if HasStrongProcessIdentity(w.files[key].state) {
      KnownStays(w, w', first, state.pid, TrimSpace(state.startID));
    }
    AccountedStays(w, w', cfg, first);
  }

  lemma LaunchKeepsAccounts(w: World, cfg: Config, first: map<string, FileContent>, key: string, root: string,
                            spec: Spec, desired: seq<string>, env: EnsureEnv)
    requires Accounted(w, cfg, first)
    ensures Accounted(LaunchRun(w, key, root, spec, desired, cfg, env).0, cfg, first)
  {
    var w' := LaunchRun(w, key, root, spec, desired, cfg, env).0;
    if w' != w {
      var l := env.launched.value;
      var state := NewState(root, spec, desired, env.now, l);
      TrimSpaceTrims(l.1);
      NewStateIsKnown(w', first, state, |w.launches|);
      AccountedStays(w, w'.(signals := w.signals), cfg, first);
      if !env.writeOk && MaySignal(cfg, l.0) {
        SignalKeepsAccounts(w'.(signals := w.signals), w', cfg, first, LaunchUndone(l.0));
      }
    }
  }

  lemma NewStateIsKnown(w: World, first: map<string, FileContent>, state: LifecycleState, k: nat)
    requires k < |w.launches| && w.launches[k].pid == state.pid && w.launches[k].startID == state.startID
    requires Trimmed(state.startID)
    ensures KnownState(w, first, Normal(state))
  {
    TrimSpaceOfTrimmed(state.startID);
    NormalIsStrong(state);
    assert LaunchedAs(w, state.pid, state.startID);
  }

  lemma ReuseKeepsAccounts(w: World, cfg: Config, first: map<string, FileContent>, key: string, spec: Spec,
                           desired: seq<string>, env: EnsureEnv)
    requires Accounted(w, cfg, first)
    ensures Accounted(ReuseRun(w, cfg, key, spec, desired, env).0, cfg, first)
  {
    match Judge(w, cfg, key, spec, desired, env)
    case Reuse(state) =>
      NormalIsStrong(w.files[key].state);
      if env.writeOk {
        RecordKeepsAccounts(w, cfg, first, key, state);
      }
    case Stop => StopKeepsAccounts(w, cfg, first, key, env.stop);
    case Remove => RemoveKeepsAccounts(w, cfg, first, key, env.stop.removed);
    case _ =>
  }

  lemma {:induction false} ShutdownIdleKeepsAccounts(w: World, cfg: Config, first: map<string, FileContent>,
                                                     keys: seq<string>, now: int, envs: seq<StopEnv>)
    requires Accounted(w, cfg, first) && |keys| == |envs|
    ensures Accounted(ShutdownIdleRun(w, cfg, keys, now, envs), cfg, first)
  {
    if keys != [] {
      var n := |keys| - 1;
      ShutdownIdleKeepsAccounts(w, cfg, first, keys[..n], now, envs[..n]);
      var t := ShutdownIdleRun(w, cfg, keys[..n], now, envs[..n]);
      if keys[n] !in t.files || t.files[keys[n]] == Corrupt {
        RemoveKeepsAccounts(t, cfg, first, keys[n], envs[n].removed);
      } else if IsIdle(cfg, Normal(t.files[keys[n]].state), now) {
        StopKeepsAccounts(t, cfg, first, keys[n], envs[n]);
      }
    }
  }

  lemma OpKeepsAccounts(w: World, cfg: Config, first: map<string, FileContent>, op: Op)
    requires Accounted(w, cfg, first) && WellFormed(op)
    ensures Accounted(Perform(w, cfg, op), cfg, first)
  {
    match op
    case Ensure(key, root, spec, resolved, env) =>
      var desired := Normalized(resolved);
      ReuseKeepsAccounts(w, cfg, first, key, spec, desired, env);
      LaunchKeepsAccounts(ReuseRun(w, cfg, key, spec, desired, env).0, cfg, first, key, root, spec, desired, env);
    case StopByKey(key, env) =>
      if key in w.files && w.files[key].Saved? {
        StopKeepsAccounts(w, cfg, first, key, env);
      } else if key in w.files {
        RemoveKeepsAccounts(w, cfg, first, key, env.removed);
      }
    case ShutdownIdle(keys, now, envs) => ShutdownIdleKeepsAccounts(w, cfg, first, keys, now, envs);
    case Touch(key, now) =>
      if key in w.files && w.files[key].Saved? {
        NormalIsStrong(w.files[key].state);
        assert KnownState(w, first, w.files[key].state);
        AccountedStays(w, TouchRun(w, key, now), cfg, first);
      }
  }

  /**
   Kill safety: whatever happens between and during the operations, every signal
   goes to a pid that may be signalled and whose start id, at the check, was the
   non-empty one on record for it; and that record came from a launch, from an
   adoption, or from a file that was there at the start.
   */
  lemma {:induction false} SignalsAreSafe(files: map<string, FileContent>, cfg: Config, ops: seq<Op>)
    requires forall k :: 0 <= k < |ops| ==> WellFormed(ops[k])
    ensures Accounted(History(World(files, [], [], {}), cfg, ops), cfg, files)
  {
    var w := World(files, [], [], {});
    if ops == [] {
      forall key | key in files && files[key].Saved? ensures KnownState(w, files, files[key].state) {
        assert HasStrongProcessIdentity(files[key].state) ==>
          RecordedIn(files, files[key].state.pid, TrimSpace(files[key].state.startID));
      }
    } else {
      SignalsAreSafe(files, cfg, ops[..|ops| - 1]);
      OpKeepsAccounts(History(w, cfg, ops[..|ops| - 1]), cfg, files, ops[|ops| - 1]);
    }
  }

  // --- adoption: where the lifecycle may come to signal what it never launched ---

  /** A state on record without a start id is of a pid that may not do what is asked about. */
  ghost predicate Guarded(files: map<string, FileContent>, may: int -> bool) {
    forall key :: key in files && files[key].Saved? ==>
      HasStrongProcessIdentity(files[key].state) || !may(files[key].state.pid)
  }

  ghost predicate AdoptedOutside(adopted: set<(int, string)>, may: int -> bool) {
    forall a :: a in adopted ==> !may(a.0)
  }

  ghost predicate AllIdentified(files: map<string, FileContent>) {
    Guarded(files, pid => true)
  }

  /** Every launch comes with a start id, as on platforms that have them. */
  predicate Identifies(op: Op) {
    op.Ensure? && op.env.launched.Some? ==> TrimSpace(op.env.launched.value.1) != ""
  }

  lemma {:induction false} ShutdownIdleOnlyRemoves(w: World, cfg: Config, keys: seq<string>, now: int,
                                                   envs: seq<StopEnv>)
    requires |keys| == |envs|
    ensures var t := ShutdownIdleRun(w, cfg, keys, now, envs);
            && t.launches == w.launches && t.adopted == w.adopted
            && forall key :: key in t.files ==> key in w.files && t.files[key] == w.files[key]
  {
    if keys != [] {
      ShutdownIdleOnlyRemoves(w, cfg, keys[..|keys| - 1], now, envs[..|keys| - 1]);
    }
  }

  lemma OpKeepsGuard(w: World, cfg: Config, op: Op, may: int -> bool)
    requires Guarded(w.files, may) && AdoptedOutside(w.adopted, may) && WellFormed(op) && Identifies(op)
    ensures var t := Perform(w, cfg, op); Guarded(t.files, may) && AdoptedOutside(t.adopted, may)
  {
    match op
    case Ensure(key, root, spec, resolved, env) =>
      var desired := Normalized(resolved);
      ReuseKeepsGuard(w, cfg, key, spec, desired, env, may);
      LaunchKeepsGuard(ReuseRun(w, cfg, key, spec, desired, env).0, cfg, key, root, spec, desired, env, may);
    case StopByKey(key, env) =>
    case ShutdownIdle(keys, now, envs) => ShutdownIdleOnlyRemoves(w, cfg, keys, now, envs);
    case Touch(key, now) =>
      if key in w.files && w.files[key].Saved? {
        NormalIsStrong(w.files[key].state);
      }
  }

  /** A daemon is reused as it is on record, but for the time, and for a start id it did not have. */
  lemma JudgedReuse(w: World, cfg: Config, key: string, spec: Spec, desired: seq<string>, env: EnsureEnv)
    requires Judge(w, cfg, key, spec, desired, env).Reuse?
    ensures var state := Judge(w, cfg, key, spec, desired, env).state;
            && key in w.files && w.files[key].Saved?
            && state.args == spec.args && state.serverEnv == desired && state.lastUsed == env.now
            && state.pid == w.files[key].state.pid
            && (HasStrongProcessIdentity(w.files[key].state) ==> state.startID == TrimSpace(w.files[key].state.startID))
  {
    NormalIsStrong(w.files[key].state);
  }

  lemma RecordKeepsGuard(w: World, key: string, state: LifecycleState, may: int -> bool)
    requires Guarded(w.files, may) && AdoptedOutside(w.adopted, may) && key in w.files && w.files[key].Saved?
    requires state.pid == w.files[key].state.pid
    requires HasStrongProcessIdentity(w.files[key].state) ==> HasStrongProcessIdentity(state)
    ensures var t := Recorded(w, key, state); Guarded(t.files, may) && AdoptedOutside(t.adopted, may)
  {
    NormalIsStrong(state);
  }

  lemma ReuseKeepsGuard(w: World, cfg: Config, key: string, spec: Spec, desired: seq<string>, env: EnsureEnv,
                        may: int -> bool)
    requires Guarded(w.files, may) && AdoptedOutside(w.adopted, may)
    ensures var t := ReuseRun(w, cfg, key, spec, desired, env).0;
            Guarded(t.files, may) && AdoptedOutside(t.adopted, may)
  {
    var verdict := Judge(w, cfg, key, spec, desired, env);
    if verdict.Reuse? {
      JudgedReuse(w, cfg, key, spec, desired, env);
      TrimmedIsTrimmed(w.files[key].state.startID);
      RecordKeepsGuard(w, key, verdict.state, may);
    }
  }

  lemma TrimmedIsTrimmed(s: string)
    ensures TrimSpace(TrimSpace(s)) == TrimSpace(s)
  {
    TrimSpaceTrims(s);
    TrimSpaceOfTrimmed(TrimSpace(s));
  }

  lemma LaunchKeepsGuard(w: World, cfg: Config, key: string, root: string, spec: Spec, desired: seq<string>,
                         env: EnsureEnv, may: int -> bool)
    requires Guarded(w.files, may) && AdoptedOutside(w.adopted, may)
    requires env.launched.Some? ==> TrimSpace(env.launched.value.1) != ""
    ensures var t := LaunchRun(w, key, root, spec, desired, cfg, env).0;
            Guarded(t.files, may) && AdoptedOutside(t.adopted, may)
  {
    if env.launched.Some? {
      TrimmedIsTrimmed(env.launched.value.1);
      NormalIsStrong(NewState(root, spec, desired, env.now, env.launched.value));
    }
  }

  ghost predicate Ordinary(ops: seq<Op>) {
    forall k :: 0 <= k < |ops| ==> WellFormed(ops[k]) && Identifies(ops[k])
  }

  lemma {:induction false} HistoryKeepsGuard(files: map<string, FileContent>, cfg: Config, ops: seq<Op>,
                                             may: int -> bool)
    requires Guarded(files, may) && Ordinary(ops)
    ensures var w := History(World(files, [], [], {}), cfg, ops);
            Guarded(w.files, may) && AdoptedOutside(w.adopted, may)
  {
    if ops != [] {
      HistoryKeepsGuard(files, cfg, ops[..|ops| - 1], may);
      OpKeepsGuard(History(World(files, [], [], {}), cfg, ops[..|ops| - 1]), cfg, ops[|ops| - 1], may);
    }
  }

  /** While every state file carries a start id, none is ever adopted. */
  lemma NothingIsAdopted(files: map<string, FileContent>, cfg: Config, ops: seq<Op>)
    requires AllIdentified(files) && Ordinary(ops)
    ensures var w := History(World(files, [], [], {}), cfg, ops); AllIdentified(w.files) && w.adopted == {}
  {
    HistoryKeepsGuard(files, cfg, ops, pid => true);
    assert forall a :: a !in History(World(files, [], [], {}), cfg, ops).adopted;
  }

  /** Every stop signalled a process that the lifecycle launched or that was on record from the start. */
  ghost predicate OwnSignals(files: map<string, FileContent>, cfg: Config, ops: seq<Op>)
    requires Ordinary(ops)
  {
    var w := History(World(files, [], [], {}), cfg, ops);
    forall k :: 0 <= k < |w.signals| && w.signals[k].Stopped? ==>
      LaunchedAs(w, w.signals[k].pid, w.signals[k].recorded)
        || RecordedIn(files, w.signals[k].pid, w.signals[k].recorded)
  }

  /**
   No history from these state files signals a process that is not the
   lifecycle's own exactly when every file without a start id is of a pid that is
   never signalled.
   */
  lemma OnlyOwnProcesses(files: map<string, FileContent>, cfg: Config)
    ensures (forall ops | Ordinary(ops) :: OwnSignals(files, cfg, ops)) <==> Guarded(files, pid => MaySignal(cfg, pid))
  {
    if Guarded(files, pid => MaySignal(cfg, pid)) {
      forall ops | Ordinary(ops) ensures OwnSignals(files, cfg, ops) {
        GuardedSignalsOwn(files, cfg, ops);
      }
    } else {
      var key :| key in files && files[key].Saved? && !HasStrongProcessIdentity(files[key].state)
        && MaySignal(cfg, files[key].state.pid);
      var id := FreshStartID(files);
      var ops := AdoptedStrangerIsSignalled(files, cfg, key, id);
      var w := History(World(files, [], [], {}), cfg, ops);
      assert w.signals[0].Stopped? && !LaunchedAs(w, w.signals[0].pid, id);
      assert !OwnSignals(files, cfg, ops);
    }
  }

  lemma GuardedSignalsOwn(files: map<string, FileContent>, cfg: Config, ops: seq<Op>)
    requires Guarded(files, pid => MaySignal(cfg, pid)) && Ordinary(ops)
    ensures OwnSignals(files, cfg, ops)
  {
    SignalsAreSafe(files, cfg, ops);
    HistoryKeepsGuard(files, cfg, ops, pid => MaySignal(cfg, pid));
    var w := History(World(files, [], [], {}), cfg, ops);
    forall k | 0 <= k < |w.signals| && w.signals[k].Stopped?
      ensures LaunchedAs(w, w.signals[k].pid, w.signals[k].recorded)
              || RecordedIn(files, w.signals[k].pid, w.signals[k].recorded)
    {
      assert Checked(cfg, w.signals[k]);
      assert Known(w, files, w.signals[k].pid, w.signals[k].recorded);
    }
  }

  lemma {:induction false} LongestStartID(files: map<string, FileContent>, keys: set<string>) returns (n: nat)
    requires keys <= files.Keys
    ensures forall key :: key in keys && files[key].Saved? ==> |TrimSpace(files[key].state.startID)| <= n
  {
    n := 0;
    if keys != {} {
      var key :| key in keys;
      n := LongestStartID(files, keys - {key});
      if files[key].Saved? && |TrimSpace(files[key].state.startID)| > n {
        n := |TrimSpace(files[key].state.startID)|;
      }
    }
  }

  /** A start id that no file has on record. */
  lemma FreshStartID(files: map<string, FileContent>) returns (id: string)
    ensures Trimmed(id) && id != "" && forall pid :: !RecordedIn(files, pid, id)
  {
    var n := LongestStartID(files, files.Keys);
    id := seq(n + 1, i => 'x');
  }

  /** The process table when only this process lives. */
  function Alone(pid: int, startID: string): Os {
    Os(map[pid := startID], {}, true)
  }

  function StopAlone(pid: int, startID: string): StopEnv {
    StopEnv(Alone(pid, startID), Alone(pid, startID), Alone(pid, startID), true, true, true)
  }

  function AdoptingEnv(state: LifecycleState, startID: string): EnsureEnv {
    var os := Alone(state.pid, startID);
    EnsureEnv(LastSeen(state), os, true, os, StopAlone(state.pid, startID), true, false, true, true, None)
  }

  /** An Ensure for a state file without a start id takes over the start id of whatever has the pid. */
  lemma EnsureAdopts(w: World, cfg: Config, key: string, id: string)
    requires key in w.files && w.files[key].Saved? && !HasStrongProcessIdentity(w.files[key].state)
    requires w.files[key].state.pid > 0 && Trimmed(id) && id != ""
    ensures var st := w.files[key].state;
            var t := Perform(w, cfg, Ensure(key, st.workspaceRoot, Spec(st.language, st.binary, st.args), st.serverEnv,
                                            AdoptingEnv(st, id)));
            && t.signals == w.signals && t.launches == w.launches
            && key in t.files && t.files[key].Saved? && t.files[key].state.pid == st.pid
               && t.files[key].state.startID == id
  {
    var st := w.files[key].state;
    var env := AdoptingEnv(st, id);
    NormalIsStrong(st);
    TrimSpaceOfTrimmed(id);
    assert !IsIdle(cfg, Normal(st), env.now);
    assert RefreshProcessStartID(env.atRefresh, Normal(st).(lastUsed := env.now))
           == Some(Normal(st).(lastUsed := env.now, startID := id));
  }

  /** A stop signals the process on record when it has the pid throughout. */
  lemma StopSignalsRecorded(w: World, cfg: Config, key: string, id: string)
    requires key in w.files && w.files[key].Saved? && w.files[key].state.startID == id
             && MaySignal(cfg, w.files[key].state.pid)
    requires Trimmed(id) && id != ""
    ensures var pid := w.files[key].state.pid;
            var t := Perform(w, cfg, StopByKey(key, StopAlone(pid, id)));
            t.signals == w.signals + [Stopped(pid, id, Some(id), Some(id))] && t.launches == w.launches
  {
    var pid := w.files[key].state.pid;
    TrimSpaceOfTrimmed(id);
    assert Signals(cfg, Normal(w.files[key].state), StopAlone(pid, id));
  }

  /**
   Any state file without a start id: Ensure takes over whatever has the pid, and
   Stop then signals that process, which nobody launched.
   */
  lemma AdoptedStrangerIsSignalled(files: map<string, FileContent>, cfg: Config, key: string, id: string)
    returns (ops: seq<Op>)
    requires key in files && files[key].Saved? && !HasStrongProcessIdentity(files[key].state)
    requires MaySignal(cfg, files[key].state.pid) && Trimmed(id) && id != ""
    ensures Ordinary(ops)
    ensures var w := History(World(files, [], [], {}), cfg, ops);
            w.signals == [Stopped(files[key].state.pid, id, Some(id), Some(id))] && w.launches == []
  {
    var w0 := World(files, [], [], {});
    var st := files[key].state;
    var ensure := Ensure(key, st.workspaceRoot, Spec(st.language, st.binary, st.args), st.serverEnv,
                         AdoptingEnv(st, id));
    var stop := StopByKey(key, StopAlone(st.pid, id));
    EnsureAdopts(w0, cfg, key, id);
    StopSignalsRecorded(Perform(w0, cfg, ensure), cfg, key, id);
    ops := [ensure, stop];
    HistoryOfTwo(w0, cfg, ensure, stop);
  }

  lemma HistoryOfTwo(w: World, cfg: Config, a: Op, b: Op)
    requires WellFormed(a) && WellFormed(b)
    ensures History(w, cfg, [a, b]) == Perform(Perform(w, cfg, a), cfg, b)
  {
    assert [a, b][..1] == [a] && [a][..0] == [];
    assert History(w, cfg, [a]) == Perform(w, cfg, a);
  }

  // --- what the signals hit ---

  /** A call of stopStateProcess: the state it acts on and the answers it gets. */
  datatype StopCall = StopCall(state: LifecycleState, env: StopEnv)

  ghost function StopsOne(files: map<string, FileContent>, key: string, env: StopEnv): seq<StopCall> {
    if key in files && files[key].Saved? then [StopCall(Normal(files[key].state), env)] else []
  }

  ghost function StopsIdle(w: World, cfg: Config, keys: seq<string>, now: int, envs: seq<StopEnv>): seq<StopCall>
    requires |keys| == |envs|
  {
    if keys == [] then []
    else
      var n := |keys| - 1;
      var t := ShutdownIdleRun(w, cfg, keys[..n], now, envs[..n]);
      StopsIdle(w, cfg, keys[..n], now, envs[..n])
      + (if InUse(t.files, cfg, keys[n], now) then [] else StopsOne(t.files, keys[n], envs[n]))
  }

  /** The stops an operation makes. */
  ghost function StopsOf(w: World, cfg: Config, op: Op): seq<StopCall>
    requires WellFormed(op)
  {
    match op
    case Ensure(key, root, spec, resolved, env) =>
      if Judge(w, cfg, key, spec, Normalized(resolved), env).Stop? then StopsOne(w.files, key, env.stop) else []
    case StopByKey(key, env) => StopsOne(w.files, key, env)
    case ShutdownIdle(keys, now, envs) => StopsIdle(w, cfg, keys, now, envs)
    case Touch(_, _) => []
  }

  ghost function StopsIn(w: World, cfg: Config, ops: seq<Op>): seq<StopCall>
    requires forall k :: 0 <= k < |ops| ==> WellFormed(ops[k])
  {
    if ops == [] then []
    else StopsIn(w, cfg, ops[..|ops| - 1]) + StopsOf(History(w, cfg, ops[..|ops| - 1]), cfg, ops[|ops| - 1])
  }

  /** The signals of stops, without those that undo a launch. */
  function StopSignals(signals: seq<Signal>): seq<Signal> {
    if signals == [] then []
    else
      StopSignals(signals[..|signals| - 1])
      + (if signals[|signals| - 1].Stopped? then [signals[|signals| - 1]] else [])
  }

  /** The signals that these stops send. */
  function SentBy(cfg: Config, stops: seq<StopCall>): seq<Signal> {
    if stops == [] then []
    else
      var last := stops[|stops| - 1];
      SentBy(cfg, stops[..|stops| - 1])
        + (if Signals(cfg, last.state, last.env) then [StopSignal(last.state, last.env)] else [])
  }

  lemma StopSignalsOneMore(signals: seq<Signal>, s: Signal)
    ensures StopSignals(signals + [s]) == StopSignals(signals) + (if s.Stopped? then [s] else [])
  {
    assert (signals + [s])[..|signals|] == signals;
  }

  lemma SentByOneMore(cfg: Config, stops: seq<StopCall>, stop: StopCall)
    ensures SentBy(cfg, stops + [stop])
            == SentBy(cfg, stops)
              + (if Signals(cfg, stop.state, stop.env) then [StopSignal(stop.state, stop.env)] else [])
  {
    assert (stops + [stop])[..|stops|] == stops;
  }

  lemma {:induction false} SentByAppend(cfg: Config, a: seq<StopCall>, b: seq<StopCall>)
    ensures SentBy(cfg, a + b) == SentBy(cfg, a) + SentBy(cfg, b)
  {
    if b == [] {
      assert a + b == a;
    } else {
      var last := b[|b| - 1];
      SentByAppend(cfg, a, b[..|b| - 1]);
      assert a + b == (a + b[..|b| - 1]) + [last];
      SentByOneMore(cfg, a + b[..|b| - 1], last);
    }
  }

  /** These stops account for the stop signals that one world has beyond another. */
  ghost predicate Adds(w: World, cfg: Config, stops: seq<StopCall>, t: World) {
    StopSignals(t.signals) == StopSignals(w.signals) + SentBy(cfg, stops)
  }

  lemma AddsNothing(w: World, cfg: Config, t: World)
    requires t.signals == w.signals
    ensures Adds(w, cfg, [], t)
  {
    assert StopSignals(w.signals) + [] == StopSignals(w.signals);
  }

  lemma StopAdds(w: World, cfg: Config, key: string, env: StopEnv)
    requires key in w.files && w.files[key].Saved?
    ensures Adds(w, cfg, StopsOne(w.files, key, env), StopRun(w, cfg, key, Normal(w.files[key].state), env))
  {
    var state := Normal(w.files[key].state);
    SentByOneMore(cfg, [], StopCall(state, env));
    assert [] + [StopCall(state, env)] == [StopCall(state, env)];
    StopSignalsOneMore(w.signals, StopSignal(state, env));
    assert StopSignals(w.signals) + ([] + []) == StopSignals(w.signals);
  }

  lemma AddsInTurn(w: World, cfg: Config, a: seq<StopCall>, t: World, b: seq<StopCall>, u: World)
    requires Adds(w, cfg, a, t) && Adds(t, cfg, b, u)
    ensures Adds(w, cfg, a + b, u)
  {
    SentByAppend(cfg, a, b);
  }

  lemma {:induction false} ShutdownIdleAdds(w: World, cfg: Config, keys: seq<string>, now: int, envs: seq<StopEnv>)
    requires |keys| == |envs|
    ensures Adds(w, cfg, StopsIdle(w, cfg, keys, now, envs), ShutdownIdleRun(w, cfg, keys, now, envs))
  {
    if keys == [] {
      AddsNothing(w, cfg, w);
    } else {
      var n := |keys| - 1;
      var t := ShutdownIdleRun(w, cfg, keys[..n], now, envs[..n]);
      ShutdownIdleAdds(w, cfg, keys[..n], now, envs[..n]);
      var stops := if InUse(t.files, cfg, keys[n], now) then [] else StopsOne(t.files, keys[n], envs[n]);
      if stops == [] {
        AddsNothing(t, cfg, ShutdownOne(t, cfg, keys[n], now, envs[n]));
      } else {
        StopAdds(t, cfg, keys[n], envs[n]);
      }
      AddsInTurn(w, cfg, StopsIdle(w, cfg, keys[..n], now, envs[..n]), t, stops,
                 ShutdownOne(t, cfg, keys[n], now, envs[n]));
    }
  }

  lemma LaunchAdds(w: World, cfg: Config, key: string, root: string, spec: Spec, desired: seq<string>, env: EnsureEnv)
    ensures Adds(w, cfg, [], LaunchRun(w, key, root, spec, desired, cfg, env).0)
  {
    AddsNothing(w, cfg, w);
    if env.launched.Some? {
      StopSignalsOneMore(w.signals, LaunchUndone(env.launched.value.0));
    }
  }

  lemma ReuseAdds(w: World, cfg: Config, key: string, spec: Spec, desired: seq<string>, env: EnsureEnv)
    ensures Adds(w, cfg, if Judge(w, cfg, key, spec, desired, env).Stop? then StopsOne(w.files, key, env.stop) else [],
                 ReuseRun(w, cfg, key, spec, desired, env).0)
  {
    if Judge(w, cfg, key, spec, desired, env).Stop? {
      StopAdds(w, cfg, key, env.stop);
    } else {
      AddsNothing(w, cfg, ReuseRun(w, cfg, key, spec, desired, env).0);
    }
  }

  lemma OpAdds(w: World, cfg: Config, op: Op)
    requires WellFormed(op)
    ensures Adds(w, cfg, StopsOf(w, cfg, op), Perform(w, cfg, op))
  {
    match op
    case Ensure(key, root, spec, resolved, env) =>
      var desired := Normalized(resolved);
      var t := ReuseRun(w, cfg, key, spec, desired, env).0;
      ReuseAdds(w, cfg, key, spec, desired, env);
      LaunchAdds(t, cfg, key, root, spec, desired, env);
      AddsInTurn(w, cfg, StopsOf(w, cfg, op), t, [], LaunchRun(t, key, root, spec, desired, cfg, env).0);
      assert StopsOf(w, cfg, op) + [] == StopsOf(w, cfg, op);
    case StopByKey(key, env) =>
      if key in w.files && w.files[key].Saved? {
        StopAdds(w, cfg, key, env);
      } else {
        AddsNothing(w, cfg, Perform(w, cfg, op));
      }
    case ShutdownIdle(keys, now, envs) => ShutdownIdleAdds(w, cfg, keys, now, envs);
    case Touch(key, now) => AddsNothing(w, cfg, Perform(w, cfg, op));
  }

  /** The stop signals of a history are those its stops send, in order. */
  lemma {:induction false} SignalsAreOfStops(w: World, cfg: Config, ops: seq<Op>)
    requires forall k :: 0 <= k < |ops| ==> WellFormed(ops[k])
    ensures Adds(w, cfg, StopsIn(w, cfg, ops), History(w, cfg, ops))
  {
    if ops == [] {
      AddsNothing(w, cfg, w);
    } else {
      var init, last := ops[..|ops| - 1], ops[|ops| - 1];
      var t := History(w, cfg, init);
      SignalsAreOfStops(w, cfg, init);
      OpAdds(t, cfg, last);
      AddsInTurn(w, cfg, StopsIn(w, cfg, init), t, StopsOf(t, cfg, last), Perform(t, cfg, last));
    }
  }

  /** The stop signals went to the processes on record. */
  ghost predicate AllHit(signals: seq<Signal>) {
    forall k :: 0 <= k < |signals| && signals[k].Stopped? ==> signals[k].hit == Some(signals[k].recorded)
  }

  /** No pid that was signalled changed hands between the check and the signal. */
  ghost predicate NoneChangedHands(cfg: Config, stops: seq<StopCall>) {
    forall k :: 0 <= k < |stops| && Signals(cfg, stops[k].state, stops[k].env) ==>
      Occupant(stops[k].env.atKill, stops[k].state.pid) == Occupant(stops[k].env.atCheck, stops[k].state.pid)
  }

  lemma {:induction false} StopSignalsHit(signals: seq<Signal>)
    ensures AllHit(StopSignals(signals)) <==> AllHit(signals)
  {
    if signals != [] {
      var init, last := signals[..|signals| - 1], signals[|signals| - 1];
      StopSignalsHit(init);
      assert signals == init + [last];
      AllHitOneMore(init, last);
      AllHitOneMore(StopSignals(init), last);
      assert StopSignals(init) + [] == StopSignals(init);
    }
  }

  lemma AllHitOneMore(signals: seq<Signal>, s: Signal)
    ensures AllHit(signals + [s]) <==> AllHit(signals) && (s.Stopped? ==> s.hit == Some(s.recorded))
  {
    var all := signals + [s];
    assert all[|signals|] == s;
    if AllHit(all) {
      forall k | 0 <= k < |signals| && signals[k].Stopped? ensures signals[k].hit == Some(signals[k].recorded) {
        assert all[k] == signals[k];
      }
    }
  }

  lemma {:induction false} SentHit(cfg: Config, stops: seq<StopCall>)
    ensures AllHit(SentBy(cfg, stops)) <==> NoneChangedHands(cfg, stops)
  {
    if stops != [] {
      var init, last := stops[..|stops| - 1], stops[|stops| - 1];
      SentHit(cfg, init);
      assert stops == init + [last];
      AllHitOneMore(SentBy(cfg, init), StopSignal(last.state, last.env));
      assert SentBy(cfg, init) + [] == SentBy(cfg, init);
      OneMoreChangedHands(cfg, init, last);
    }
  }

  lemma OneMoreChangedHands(cfg: Config, stops: seq<StopCall>, stop: StopCall)
    ensures NoneChangedHands(cfg, stops + [stop]) <==>
              NoneChangedHands(cfg, stops)
              && (Signals(cfg, stop.state, stop.env) ==>
                    StopSignal(stop.state, stop.env).hit == Some(StopSignal(stop.state, stop.env).recorded))
  {
    var all := stops + [stop];
    assert all[|stops|] == stop;
    if NoneChangedHands(cfg, all) {
      forall k | 0 <= k < |stops| && Signals(cfg, stops[k].state, stops[k].env)
        ensures Occupant(stops[k].env.atKill, stops[k].state.pid) == Occupant(stops[k].env.atCheck, stops[k].state.pid)
      {
        assert all[k] == stops[k];
      }
    }
  }

  lemma AddedHit(w: World, cfg: Config, stops: seq<StopCall>, t: World)
    requires w.signals == [] && Adds(w, cfg, stops, t)
    ensures AllHit(t.signals) <==> NoneChangedHands(cfg, stops)
  {
    StopSignalsHit(t.signals);
    SentHit(cfg, stops);
    assert [] + SentBy(cfg, stops) == SentBy(cfg, stops);
  }

  /**
   The check does not bind the signal: over a whole history, every stop signal
   hits the process on record exactly when none of the pids signalled changes
   hands between the check of its stop and the signal.
   */
  lemma EverySignalHitsIff(files: map<string, FileContent>, cfg: Config, ops: seq<Op>)
    requires forall k :: 0 <= k < |ops| ==> WellFormed(ops[k])
    ensures var w := World(files, [], [], {});
            AllHit(History(w, cfg, ops).signals) <==> NoneChangedHands(cfg, StopsIn(w, cfg, ops))
  {
    var w := World(files, [], [], {});
    SignalsAreOfStops(w, cfg, ops);
    AddedHit(w, cfg, StopsIn(w, cfg, ops), History(w, cfg, ops));
  }

  /** Such a change of hands: the signal goes to a process that was never on record. */
  lemma SignalCanStray(w: World, cfg: Config, key: string, state: LifecycleState, stranger: string)
    requires MaySignal(cfg, state.pid) && HasStrongProcessIdentity(state)
    ensures var id := TrimSpace(state.startID);
            var env := StopAlone(state.pid, id).(atKill := Alone(state.pid, stranger));
            StopRun(w, cfg, key, state, env).signals == w.signals + [Stopped(state.pid, id, Some(id), Some(stranger))]
  {
    var id := TrimSpace(state.startID);
    var env := StopAlone(state.pid, id).(atKill := Alone(state.pid, stranger));
    assert Signals(cfg, state, env);
  }

  // --- reuse ---

  /** The process on record is still there: by its start id, or, without one, by its pid. */
  predicate StillRuns(os: Os, atRefresh: Os, state: LifecycleState) {
    if HasStrongProcessIdentity(state) then ProcessMatchesState(os, state)
    else ProcessAlive(os, state.pid) && RefreshProcessStartID(atRefresh, state).Some?
  }

  /** The state file says what the lease says. */
  ghost predicate Records(w: World, key: string, spec: Spec, desired: seq<string>, now: int, lease: Lease) {
    && key in w.files && w.files[key].Saved?
    && var state := w.files[key].state;
    && Normal(state) == state && state.args == spec.args && state.serverEnv == desired
    && lease == LeaseFrom(key, state, lease.reused) && state.lastUsed == now
  }

  lemma RecordedRecords(w: World, key: string, spec: Spec, desired: seq<string>, now: int, state: LifecycleState)
    requires state.args == spec.args && state.serverEnv == desired && Normalized(desired) == desired
    requires state.lastUsed == now
    ensures Records(Recorded(w, key, state), key, spec, desired, now, LeaseFrom(key, state, true))
  {
    NormalIsFixed(state);
  }

  lemma ReuseRecords(w: World, cfg: Config, key: string, spec: Spec, desired: seq<string>, env: EnsureEnv)
    requires Normalized(desired) == desired
    ensures var (t, r) := ReuseRun(w, cfg, key, spec, desired, env);
            r.Some? && r.value.Ok? ==> Records(t, key, spec, desired, env.now, r.value.value)
  {
    var verdict := Judge(w, cfg, key, spec, desired, env);
    if verdict.Reuse? {
      JudgedReuse(w, cfg, key, spec, desired, env);
      RecordedRecords(w, key, spec, desired, env.now, verdict.state);
    }
  }

  lemma LaunchRecords(w: World, cfg: Config, key: string, root: string, spec: Spec, desired: seq<string>,
                      env: EnsureEnv)
    requires Normalized(desired) == desired
    ensures var (t, r) := LaunchRun(w, key, root, spec, desired, cfg, env);
            r.Ok? ==> Records(t, key, spec, desired, env.now, r.value)
  {
    if env.launched.Some? {
      NormalIsFixed(NewState(root, spec, desired, env.now, env.launched.value));
    }
  }

  /** After an Ensure that succeeded, the state file says what the lease says. */
  lemma EnsureRecords(w: World, cfg: Config, key: string, root: string, spec: Spec, resolved: seq<string>,
                      env: EnsureEnv)
    requires EnsureRun(w, cfg, key, root, spec, Normalized(resolved), env).1.Ok?
    ensures var (w', r) := EnsureRun(w, cfg, key, root, spec, Normalized(resolved), env);
            Records(w', key, spec, Normalized(resolved), env.now, r.value)
  {
    NormalizedIsFixed(resolved);
    ReuseRecords(w, cfg, key, spec, Normalized(resolved), env);
    LaunchRecords(ReuseRun(w, cfg, key, spec, Normalized(resolved), env).0, cfg, key, root, spec, Normalized(resolved),
                  env);
  }

  /** Everything that must hold of the state file and of the world for a daemon to be reused. */
  ghost predicate Reusable(w: World, cfg: Config, key: string, spec: Spec, desired: seq<string>, env: EnsureEnv) {
    && key in w.files && w.files[key].Saved?
    && var state := Normal(w.files[key].state);
    && state.args == spec.args && state.serverEnv == desired
    && (cfg.idleTimeout <= 0 || LastSeen(state) == 0 || env.now - LastSeen(state) < cfg.idleTimeout)
    && StillRuns(env.os, env.atRefresh, state) && env.healthy && env.writeOk
  }

  lemma RefreshIgnoresTime(os: Os, state: LifecycleState, now: int)
    ensures RefreshProcessStartID(os, state.(lastUsed := now)).Some? <==> RefreshProcessStartID(os, state).Some?
    ensures RefreshProcessStartID(os, state).Some? ==>
              RefreshProcessStartID(os, state.(lastUsed := now)).value.pid == state.pid
  {
  }

  lemma JudgesReuseIff(w: World, cfg: Config, key: string, spec: Spec, desired: seq<string>, env: EnsureEnv)
    ensures Judge(w, cfg, key, spec, desired, env).Reuse? && env.writeOk <==> Reusable(w, cfg, key, spec, desired, env)
  {
    if key in w.files && w.files[key].Saved? {
      var state := Normal(w.files[key].state);
      assert !IsIdle(cfg, state, env.now) <==>
             cfg.idleTimeout <= 0 || LastSeen(state) == 0 || env.now - LastSeen(state) < cfg.idleTimeout;
      RefreshIgnoresTime(env.atRefresh, state, env.now);
    }
  }

  /** Ensure reuses a daemon exactly when it may; the lease is then of the process on record. */
  lemma ReusesIff(w: World, cfg: Config, key: string, root: string, spec: Spec, desired: seq<string>, env: EnsureEnv)
    ensures var r := EnsureRun(w, cfg, key, root, spec, desired, env).1;
            && (r.Ok? && r.value.reused <==> Reusable(w, cfg, key, spec, desired, env))
            && (r.Ok? && r.value.reused ==>
                r.value.pid == w.files[key].state.pid && r.value.socketPath == key + ".sock")
  {
    JudgesReuseIff(w, cfg, key, spec, desired, env);
    if Judge(w, cfg, key, spec, desired, env).Reuse? {
      JudgedReuse(w, cfg, key, spec, desired, env);
    }
  }

  /** What an operation may do without harm to the daemon of a key: leave it alone, note its use, or reuse it. */
  ghost predicate Harmless(w: World, cfg: Config, key: string, op: Op) {
    match op
    case Ensure(k, _, spec, resolved, env) =>
      k == key ==>
        Reusable(w, cfg, key, spec, Normalized(resolved), env) && HasStrongProcessIdentity(w.files[key].state)
    case StopByKey(k, _) => k != key
    case ShutdownIdle(keys, now, _) => key in keys ==> InUse(w.files, cfg, key, now)
    case Touch(_, _) => true
  }

  ghost predicate HarmlessRun(w: World, cfg: Config, key: string, ops: seq<Op>)
    requires forall k :: 0 <= k < |ops| ==> WellFormed(ops[k])
  {
    ops != [] ==>
      && HarmlessRun(w, cfg, key, ops[..|ops| - 1])
      && Harmless(History(w, cfg, ops[..|ops| - 1]), cfg, key, ops[|ops| - 1])
  }

  /** When the daemon of a key was last used, after an operation. */
  function UsedAt(op: Op, key: string, before: int): int {
    match op
    case Ensure(k, _, _, _, env) => if k == key then env.now else before
    case Touch(k, now) => if k == key then now else before
    case _ => before
  }

  function LastUse(ops: seq<Op>, key: string, first: int): int {
    if ops == [] then first else UsedAt(ops[|ops| - 1], key, LastUse(ops[..|ops| - 1], key, first))
  }

  /** The state of a key is on record as it would be read. */
  ghost predicate OnRecord(w: World, key: string, state: LifecycleState) {
    key in w.files && w.files[key] == Saved(state) && Normal(state) == state
  }

  lemma {:induction false} ShutdownIdleKeepsInUse(w: World, cfg: Config, keys: seq<string>, now: int,
                                                  envs: seq<StopEnv>, key: string)
    requires |keys| == |envs| && InUse(w.files, cfg, key, now)
    ensures SameEntry(w.files, ShutdownIdleRun(w, cfg, keys, now, envs).files, key)
  {
    if keys != [] {
      var n := |keys| - 1;
      ShutdownIdleKeepsInUse(w, cfg, keys[..n], now, envs[..n], key);
    }
  }

  lemma NormalIgnoresTime(state: LifecycleState, now: int)
    ensures Normal(state.(lastUsed := now)) == Normal(state).(lastUsed := now)
  {
  }

  lemma ReuseKeepsRecord(w: World, cfg: Config, key: string, root: string, spec: Spec, desired: seq<string>,
                         env: EnsureEnv, state: LifecycleState)
    requires OnRecord(w, key, state) && HasStrongProcessIdentity(state) && Reusable(w, cfg, key, spec, desired, env)
    ensures OnRecord(EnsureRun(w, cfg, key, root, spec, desired, env).0, key, state.(lastUsed := env.now))
  {
    NormalIgnoresTime(state, env.now);
    assert Judge(w, cfg, key, spec, desired, env) == Reuse(state.(lastUsed := env.now));
  }

  lemma HarmlessKeepsRecord(w: World, cfg: Config, key: string, op: Op, state: LifecycleState)
    requires WellFormed(op) && OnRecord(w, key, state) && Harmless(w, cfg, key, op)
    ensures OnRecord(Perform(w, cfg, op), key, state.(lastUsed := UsedAt(op, key, state.lastUsed)))
  {
    if !Names(op, key) {
      OtherKeysUntouched(w, cfg, op, key);
    } else {
      match op
      case Ensure(_, root, spec, resolved, env) =>
        ReuseKeepsRecord(w, cfg, key, root, spec, Normalized(resolved), env, state);
      case ShutdownIdle(keys, now, envs) => ShutdownIdleKeepsInUse(w, cfg, keys, now, envs, key);
      case Touch(_, now) => NormalIgnoresTime(state, now);
      case StopByKey(_, _) =>
    }
  }

  lemma {:induction false} StaysOnRecord(w: World, cfg: Config, key: string, ops: seq<Op>, state: LifecycleState)
    requires (forall k :: 0 <= k < |ops| ==> WellFormed(ops[k])) && OnRecord(w, key, state)
             && HarmlessRun(w, cfg, key, ops)
    ensures OnRecord(History(w, cfg, ops), key, state.(lastUsed := LastUse(ops, key, state.lastUsed)))
  {
    if ops != [] {
      var init, last := ops[..|ops| - 1], ops[|ops| - 1];
      StaysOnRecord(w, cfg, key, init, state);
      var now := LastUse(init, key, state.lastUsed);
      HarmlessKeepsRecord(History(w, cfg, init), cfg, key, last, state.(lastUsed := now));
    }
  }

  /** A state on record makes for this lease exactly when it may be reused. */
  lemma RecordIsReused(w: World, cfg: Config, key: string, root: string, spec: Spec, desired: seq<string>,
                       env: EnsureEnv, state: LifecycleState)
    requires OnRecord(w, key, state) && state.args == spec.args && state.serverEnv == desired
    ensures var r := EnsureRun(w, cfg, key, root, spec, desired, env).1;
            r == Ok(LeaseFrom(key, state, true)) <==>
              !IsIdle(cfg, state, env.now) && StillRuns(env.os, env.atRefresh, state) && env.healthy && env.writeOk
  {
    ReusesIff(w, cfg, key, root, spec, desired, env);
    if Reusable(w, cfg, key, spec, desired, env) {
      ReusedLease(w, cfg, key, root, spec, desired, env, state);
    }
  }

  lemma ReusedLease(w: World, cfg: Config, key: string, root: string, spec: Spec, desired: seq<string>,
                    env: EnsureEnv, state: LifecycleState)
    requires OnRecord(w, key, state) && Reusable(w, cfg, key, spec, desired, env)
    ensures EnsureRun(w, cfg, key, root, spec, desired, env).1 == Ok(LeaseFrom(key, state, true))
  {
    assert !IsIdle(cfg, state, env.now);
    if HasStrongProcessIdentity(state) {
      assert Judge(w, cfg, key, spec, desired, env) == Reuse(state.(lastUsed := env.now));
    } else {
      assert RefreshProcessStartID(env.atRefresh, state.(lastUsed := env.now)).Some?;
    }
  }

  /**
   Reuse is stable: after an Ensure that succeeded, and any history that stops
   this daemon neither by name nor as idle nor replaces it, an Ensure for the same
   spec and environment returns the same lease as reused, exactly when the process
   still runs, its socket is healthy, the state can be written, and the last use
   is within the idle timeout. Operations on other keys do not matter.
   */
  lemma ReuseIsStable(w: World, cfg: Config, key: string, root: string, spec: Spec, resolved: seq<string>,
                      env: EnsureEnv, ops: seq<Op>, env': EnsureEnv)
    requires forall k :: 0 <= k < |ops| ==> WellFormed(ops[k])
    requires EnsureRun(w, cfg, key, root, spec, Normalized(resolved), env).1.Ok?
    requires HarmlessRun(EnsureRun(w, cfg, key, root, spec, Normalized(resolved), env).0, cfg, key, ops)
    ensures var (w', r) := EnsureRun(w, cfg, key, root, spec, Normalized(resolved), env);
            && key in w'.files && w'.files[key].Saved?
            && var state := w'.files[key].state.(lastUsed := LastUse(ops, key, env.now));
            EnsureRun(History(w', cfg, ops), cfg, key, root, spec, Normalized(resolved), env').1
              == Ok(r.value.(reused := true))
            <==>
            !IsIdle(cfg, state, env'.now) && StillRuns(env'.os, env'.atRefresh, state) && env'.healthy && env'.writeOk
  {
    var desired := Normalized(resolved);
    EnsureRecords(w, cfg, key, root, spec, resolved, env);
    var w' := EnsureRun(w, cfg, key, root, spec, desired, env).0;
    var state := w'.files[key].state;
    StaysOnRecord(w', cfg, key, ops, state);
    RecordIsReused(History(w', cfg, ops), cfg, key, root, spec, desired, env',
                   state.(lastUsed := LastUse(ops, key, env.now)));
  }
}
