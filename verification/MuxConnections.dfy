/**
 How long a client is served (pkg/lsp/daemon_unix.go:325-392, 682-757): in every
 run a handler leaves only for a cause, a client is listed until its handler
 leaves, and a connection stays open until then or until a write to it fails.
 */
module MuxConnections {
  import opened Wrappers
  import opened JsonRpc
  import opened Mux
  import opened MuxRouting
  import opened MuxForwarding

  /** An initialize that is not answered from the cache: it has no id, there is no response, or it cannot be written. */
  predicate CannotReply(s: MuxState, step: Step, c: nat) {
    && step.Handler? && step.client == c && step.does.Reply?
    && c in s.table.handlers && s.table.handlers[c].Replying?
    && var request := s.table.handlers[c].request;
    || request.Garbage? || request.id.None? || s.init.response.None? || !step.does.ok || c !in s.table.open
  }

  /** At some point of the run that happened to this client. */
  predicate NoReply(steps: seq<Step>, c: nat)
    requires RunFrom(INITIAL, steps).Some?
  {
    steps != [] &&
    var init := steps[..|steps| - 1];
    NoReply(init, c) || CannotReply(RunFrom(INITIAL, init).value, steps[|steps| - 1], c)
  }

  predicate HasCause(s: MuxState, step: Step, c: nat) {
    step == Handler(c, Hangup) || step == Handler(c, WriteServer(false)) || CannotReply(s, step, c)
  }

  lemma OwnStepLeaves(s: MuxState, c: nat, does: HandlerStep)
    requires Enabled(s, Handler(c, does))
    ensures HasLeft(Apply(s, Handler(c, does)).table, c) <==>
              HasLeft(s.table, c) || HasCause(s, Handler(c, does), c)
  {
  }

  lemma StepLeaves(s: MuxState, step: Step, c: nat)
    requires TableOk(s.table) && Enabled(s, step)
    ensures HasLeft(Apply(s, step).table, c) <==> HasLeft(s.table, c) || HasCause(s, step, c)
  {
    if step.Handler? && step.client == c {
      OwnStepLeaves(s, c, step.does);
    } else {
      StepKeepsListed(s, step, c);
      if c in Apply(s, step).table.handlers {
        OthersKeepHandler(s, step, c);
      }
    }
  }

  /**
   A handler leaves exactly when its client hangs up, a write to the server fails,
   or an initialize cannot be answered from the cache.
   */
  lemma {:induction false} LeavesForACause(steps: seq<Step>, s: MuxState, c: nat)
    requires Reaches(steps, s)
    ensures HasLeft(s.table, c) <==>
              Handler(c, Hangup) in steps || Handler(c, WriteServer(false)) in steps || NoReply(steps, c)
  {
    if steps != [] {
      var init, last := steps[..|steps| - 1], steps[|steps| - 1];
      var t := RunFrom(INITIAL, init).value;
      LeavesForACause(init, t, c);
      RunKeepsRouting(init, t);
      StepLeaves(t, last, c);
      assert steps == init + [last];
    }
  }

  // --- listed and connected ---

  lemma StepLists(s: MuxState, step: Step, c: nat)
    requires Enabled(s, step)
    ensures c in Apply(s, step).table.clients <==>
              step == Accept(c) || (c in s.table.clients && step != Handler(c, HandlerStep.Unlist))
    ensures c in Apply(s, step).table.handlers <==> c in s.table.handlers || step == Accept(c)
  {
  }

  /** A client is on the list from when it is accepted until its handler takes it off. */
  lemma {:induction false} ListedUntilUnlisted(steps: seq<Step>, s: MuxState, c: nat)
    requires Reaches(steps, s)
    ensures c in s.table.handlers <==> Accept(c) in steps
    ensures c in s.table.clients <==> Accept(c) in steps && Handler(c, HandlerStep.Unlist) !in steps
  {
    if steps != [] {
      var init, last := steps[..|steps| - 1], steps[|steps| - 1];
      var t := RunFrom(INITIAL, init).value;
      ListedUntilUnlisted(init, t, c);
      RunKeepsRouting(init, t);
      StepLists(t, last, c);
      assert steps == init + [last];
      if last == Accept(c) {
        assert Accept(c) !in init;
        NothingBeforeAccept(init, t, c);
      }
    }
  }

  /** A client that was not accepted has done nothing. */
  lemma {:induction false} NothingBeforeAccept(steps: seq<Step>, s: MuxState, c: nat)
    requires Reaches(steps, s) && c !in s.table.handlers
    ensures forall does :: Handler(c, does) !in steps
  {
    if steps != [] {
      var init, last := steps[..|steps| - 1], steps[|steps| - 1];
      var t := RunFrom(INITIAL, init).value;
      StepLists(t, last, c);
      NothingBeforeAccept(init, t, c);
      assert steps == init + [last];
    }
  }

  lemma StepOpens(s: MuxState, step: Step, c: nat)
    requires Enabled(s, step) && c in s.table.open && c !in Apply(s, step).table.open
    ensures step == Handler(c, HandlerStep.CloseConn) || step == Handler(c, Reply(false))
            || step == Reader(WriteClient(c, false))
  {
    match step
    case Handler(x, does) => HandlerOpens(s, x, does, c);
    case _ =>
  }

  lemma HandlerOpens(s: MuxState, x: nat, does: HandlerStep, c: nat)
    requires Enabled(s, Handler(x, does)) && c in s.table.open && c !in Apply(s, Handler(x, does)).table.open
    ensures x == c && (does == HandlerStep.CloseConn || does == Reply(false))
  {
  }

  /** A connection is closed only at the end of its handler, or when a write to it failed. */
  lemma {:induction false} ClosedForACause(steps: seq<Step>, s: MuxState, c: nat)
    requires Reaches(steps, s) && c in s.table.handlers && c !in s.table.open
    ensures Handler(c, HandlerStep.CloseConn) in steps || Handler(c, Reply(false)) in steps
            || Reader(WriteClient(c, false)) in steps
  {
    if steps != [] {
      var init, last := steps[..|steps| - 1], steps[|steps| - 1];
      var t := RunFrom(INITIAL, init).value;
      RunKeepsRouting(init, t);
      StepLists(t, last, c);
      assert steps == init + [last];
      if c in t.table.handlers {
        if c in t.table.open {
          StepOpens(t, last, c);
        } else {
          ClosedForACause(init, t, c);
        }
      }
    }
  }
}
