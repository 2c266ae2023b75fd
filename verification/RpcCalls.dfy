/**
 Why a call ends (pkg/lsp/client.go:218-273): in every run, what has become of a
 call is what its own steps made of it, and an answer that was read for a call
 that waits is there for it to take.
 */
module RpcCalls {
  import opened Wrappers
  import opened JsonRpc
  import opened RpcClient

  /** What has happened to a call in a run. */
  datatype Life = Life(registered: bool, late: bool, written: bool, writeFailed: bool, received: bool, timedOut: bool,
                       sawDone: bool)

  /** The call came to register after done was closed. */
  predicate CameLate(steps: seq<Step>, id: int) {
    steps != [] &&
    var before := steps[..|steps| - 1];
    CameLate(before, id) || (steps[|steps| - 1] == Register(id) && CloseDone in before)
  }

  function LifeOf(steps: seq<Step>, id: int): Life {
    Life(Register(id) in steps, CameLate(steps, id), WriteSucceeds(id) in steps, WriteFails(id) in steps,
         Receive(id) in steps, Timeout(id) in steps, SeeDone(id) in steps)
  }

  const UNBORN: Life := Life(false, false, false, false, false, false, false)

  /** The channel was closed with nothing sent on it. */
  predicate IsClosedUnsent(s: ClientState, id: int) {
    id in s.channels && s.channels[id].closes == 1 && s.channels[id].sends == 0
  }

  /** An answer was sent on the channel. */
  predicate IsAnswered(s: ClientState, id: int) {
    id in s.channels && s.channels[id].sends == 1
  }

  predicate Lived(s: ClientState, id: int, life: Life) {
    if id !in s.calls then life == UNBORN
    else
      match s.calls[id]
      case Allocated => life == UNBORN
      case Registered => life == UNBORN.(registered := true)
      case Waiting => life == UNBORN.(registered := true, written := true)
      case Leaving(o) => !o.GotResponse? && EndedBy(s, id, o, life)
      case Returned(o) => EndedBy(s, id, o, life)
  }

  /** Each outcome has its one cause. */
  predicate EndedBy(s: ClientState, id: int, o: Outcome, life: Life) {
    match o
    case NotSent(_) => life == UNBORN.(registered := true, late := true)
    case DuplicateID => false
    case SendFailed => life == UNBORN.(registered := true, writeFailed := true)
    case TimedOut => life == UNBORN.(registered := true, written := true, timedOut := true)
    case GotResponse(_) => life == UNBORN.(registered := true, written := true, received := true) && IsAnswered(s, id)
    case TransportFailed(_) =>
      || (life == UNBORN.(registered := true, written := true, sawDone := true) && s.done)
      || (life == UNBORN.(registered := true, written := true, received := true) && IsClosedUnsent(s, id))
  }

  /** What a step of the call adds to its life. */
  function Lives(life: Life, step: Step, done: bool): Life {
    match step
    case Register(_) => life.(registered := true, late := life.late || done)
    case WriteSucceeds(_) => life.(written := true)
    case WriteFails(_) => life.(writeFailed := true)
    case Receive(_) => life.(received := true)
    case Timeout(_) => life.(timedOut := true)
    case SeeDone(_) => life.(sawDone := true)
    case _ => life
  }

  lemma LifeStep(steps: seq<Step>, step: Step, id: int)
    ensures LifeOf(steps + [step], id) ==
              if Owner(step) == Some(id) then Lives(LifeOf(steps, id), step, CloseDone in steps) else LifeOf(steps, id)
  {
    assert (steps + [step])[..|steps|] == steps;
  }

  lemma OwnStepLived(s: ClientState, step: Step, id: int, life: Life)
    requires Invariant(s) && Enabled(s, step) && Owner(step) == Some(id) && Lived(s, id, life)
    ensures Lived(Apply(s, step), id, Lives(life, step, s.done))
  {
    assert CallOk(s, id);
    if step.Register? {
      assert InState(s, id, Allocated);
    }
  }

  /** What is said of a channel stays true, and done stays closed. */
  lemma StepKeepsSigns(s: ClientState, step: Step, id: int)
    requires Invariant(s) && Enabled(s, step)
    ensures IsAnswered(s, id) ==> IsAnswered(Apply(s, step), id)
    ensures IsClosedUnsent(s, id) ==> IsClosedUnsent(Apply(s, step), id)
    ensures s.done ==> Apply(s, step).done
  {
    ReaderHolds(s, step);
  }

  lemma OthersKeepCall(s: ClientState, step: Step, id: int)
    requires Owned(s) && Enabled(s, step) && Owner(step) != Some(id)
    ensures var t := Apply(s, step);
            if id in s.calls then id in t.calls && t.calls[id] == s.calls[id]
            else id in t.calls ==> t.calls[id].Allocated?
  {
    if Owner(step).Some? {
      CallStepFrame(s, step, Owner(step).value);
    }
  }

  /** Nobody else changes what has become of a call. */
  lemma OthersStepLived(s: ClientState, step: Step, id: int, life: Life)
    requires Invariant(s) && Enabled(s, step) && Owner(step) != Some(id) && Lived(s, id, life)
    ensures Lived(Apply(s, step), id, life)
  {
    OthersKeepCall(s, step, id);
    StepKeepsSigns(s, step, id);
  }

  lemma StepDone(s: ClientState, step: Step)
    requires Enabled(s, step)
    ensures Apply(s, step).done <==> s.done || step == CloseDone
  {
  }

  lemma {:induction false} DoneIsClosed(steps: seq<Step>, s: ClientState)
    requires Reaches(steps, s)
    ensures s.done <==> CloseDone in steps
  {
    if steps != [] {
      var before, last := steps[..|steps| - 1], steps[|steps| - 1];
      DoneIsClosed(before, RunFrom(INITIAL, before).value);
      StepDone(RunFrom(INITIAL, before).value, last);
      assert steps == before + [last];
    }
  }

  lemma StepLived(s: ClientState, step: Step, id: int, life: Life)
    requires Invariant(s) && Enabled(s, step) && Lived(s, id, life)
    ensures Lived(Apply(s, step), id, if Owner(step) == Some(id) then Lives(life, step, s.done) else life)
  {
    if Owner(step) == Some(id) {
      OwnStepLived(s, step, id, life);
    } else {
      OthersStepLived(s, step, id, life);
    }
  }

  lemma {:induction false} RunLived(steps: seq<Step>, s: ClientState, id: int)
    requires Reaches(steps, s)
    ensures Lived(s, id, LifeOf(steps, id))
  {
    if steps != [] {
      var before, last := steps[..|steps| - 1], steps[|steps| - 1];
      var t := RunFrom(INITIAL, before).value;
      RunLived(before, t, id);
      RunKeepsInvariant(INITIAL, before);
      DoneIsClosed(before, t);
      LifeStep(before, last, id);
      StepLived(t, last, id, LifeOf(before, id));
      assert before + [last] == steps;
    }
  }

  predicate HasEnded(s: ClientState, id: int) {
    id in s.calls && (s.calls[id].Leaving? || s.calls[id].Returned?)
  }

  /**
   Every outcome has its cause, and every cause its outcome, in every run: a call
   times out, fails to be sent, sees the end of the transport or takes an answer
   exactly when that is what happened to it; and once it is written it waits
   until one of these has happened.
   */
  lemma EndsForACause(steps: seq<Step>, s: ClientState, id: int)
    requires Reaches(steps, s)
    ensures HasEnded(s, id) && s.calls[id].outcome == TimedOut <==> Timeout(id) in steps
    ensures HasEnded(s, id) && s.calls[id].outcome == SendFailed <==> WriteFails(id) in steps
    ensures HasEnded(s, id) && s.calls[id].outcome.TransportFailed? <==>
              SeeDone(id) in steps || (Receive(id) in steps && IsClosedUnsent(s, id))
    ensures HasEnded(s, id) && s.calls[id].outcome.GotResponse? <==> Receive(id) in steps && IsAnswered(s, id)
    ensures HasEnded(s, id) && s.calls[id].outcome.NotSent? <==> CameLate(steps, id)
    ensures InState(s, id, Waiting) <==>
              WriteSucceeds(id) in steps && Timeout(id) !in steps && SeeDone(id) !in steps && Receive(id) !in steps
  {
    RunLived(steps, s, id);
    RunKeepsInvariant(INITIAL, steps);
  }

  /** What has to have happened for a call to return this. */
  ghost predicate IsDue(steps: seq<Step>, s: ClientState, id: int, o: Outcome) {
    match o
    case GotResponse(response) =>
      FirstAnswer(steps, id) == Some(response) && Answers(response, id) && Receive(id) in steps
    case NotSent(error) => error.Some? && error == s.readErr && CameLate(steps, id)
    case DuplicateID => false
    case SendFailed => WriteFails(id) in steps
    case TimedOut => Timeout(id) in steps && WriteSucceeds(id) in steps
    case TransportFailed(error) =>
      && error.Some? && error == s.readErr && WriteSucceeds(id) in steps
      && (SeeDone(id) in steps || (Receive(id) in steps && IsClosedUnsent(s, id)))
  }

  /**
   What a call returns, in every run: a result is the first answer to its own id
   read after it was registered, and came to it through its channel; a transport
   error is the one that ended the reader loop; a timeout or a failure to send
   is its own; and no call is told that its id is taken.
   */
  lemma ReturnsItsOwnAnswer(steps: seq<Step>, s: ClientState, id: int)
    requires Reaches(steps, s) && id in s.calls && s.calls[id].Returned?
    ensures IsDue(steps, s, id, s.calls[id].outcome)
  {
    RunKeepsInvariant(INITIAL, steps);
    RunKeepsHistory(steps, s, id);
    RunLived(steps, s, id);
    assert CallOk(s, id);
  }

  // --- an answer that was read is there to take ---

  /** The answer is about to be sent on the channel of the call, or has been. */
  ghost predicate IsThere(s: ClientState, steps: seq<Step>, id: int) {
    id in s.calls && (s.calls[id].Registered? || s.calls[id].Waiting?) && FirstAnswer(steps, id).Some? ==>
      s.reader == Delivering(id, FirstAnswer(steps, id).value) || IsAnswered(s, id)
  }

  /** As long as no answer was read, an unfinished call is in the pending table while the reader reads. */
  lemma UnansweredIsPending(s: ClientState, steps: seq<Step>, id: int)
    requires Invariant(s) && HistoryOk(s, steps, id) && s.reader == Reading && FirstAnswer(steps, id).None?
    requires id in s.calls && (s.calls[id].Registered? || s.calls[id].Waiting?)
    ensures id in s.pending && s.pending[id] == id
  {
    assert CallOk(s, id);
  }

  lemma StepKeepsThere(s: ClientState, steps: seq<Step>, step: Step, id: int)
    requires Invariant(s) && HistoryOk(s, steps, id) && IsThere(s, steps, id) && Enabled(s, step)
    ensures IsThere(Apply(s, step), steps + [step], id)
  {
    FirstAnswerStep(steps, step, id);
    if Owner(step).Some? {
      CallStepFrame(s, step, Owner(step).value);
    } else if step.ReadResponse? && id in s.calls && (s.calls[id].Registered? || s.calls[id].Waiting?)
              && FirstAnswer(steps, id).None? {
      UnansweredIsPending(s, steps, id);
    }
    ReaderHolds(s, step);
  }

  lemma {:induction false} RunKeepsThere(steps: seq<Step>, s: ClientState, id: int)
    requires Reaches(steps, s)
    ensures IsThere(s, steps, id)
  {
    if steps != [] {
      var before, last := steps[..|steps| - 1], steps[|steps| - 1];
      var t := RunFrom(INITIAL, before).value;
      RunKeepsThere(before, t, id);
      RunKeepsInvariant(INITIAL, before);
      RunKeepsHistory(before, t, id);
      StepKeepsThere(t, before, last, id);
      assert before + [last] == steps;
    }
  }

  /**
   A call that was written and has not ended otherwise takes the first answer that
   was read for it: the answer is next to be sent on its channel, or was, and then
   the call can receive it and returns exactly that.
   */
  lemma AnswerIsTaken(steps: seq<Step>, s: ClientState, id: int)
    requires Reaches(steps, s) && WriteSucceeds(id) in steps && FirstAnswer(steps, id).Some?
    requires Timeout(id) !in steps && SeeDone(id) !in steps && Receive(id) !in steps
    ensures !IsAnswered(s, id) ==>
              Enabled(s, Send) && IsAnswered(Apply(s, Send), id) && InState(Apply(s, Send), id, Waiting)
    ensures IsAnswered(s, id) ==>
              Enabled(s, Receive(id))
                && InState(Apply(s, Receive(id)), id, Returned(GotResponse(FirstAnswer(steps, id).value)))
  {
    RunKeepsInvariant(INITIAL, steps);
    RunKeepsHistory(steps, s, id);
    RunLived(steps, s, id);
    RunKeepsThere(steps, s, id);
    EndsForACause(steps, s, id);
    if !IsAnswered(s, id) {
      ReaderHolds(s, Send);
    }
  }
}
