/**
 The JSON-RPC client (pkg/lsp/client.go) as a transition system with one step
 per lock section, channel operation or select: any number of calls, and one
 reader loop that routes responses until the transport fails.
 */
module RpcClient {
  import opened Wrappers
  import opened JsonRpc
  import opened Sequences

  datatype Response = Response(id: JsonId, body: string)

  /** A channel of capacity one, with a count of what was done to it. */
  datatype Channel = Channel(queue: seq<Response>, sends: nat, closes: nat)

  datatype Outcome =
    | GotResponse(response: Response)
    | NotSent(error: Option<string>)
    | DuplicateID
    | SendFailed
    | TimedOut
    | TransportFailed(error: Option<string>)

  /** Where one Call is: it owns the request id and the response channel of that number. */
  datatype CallState =
    | Allocated
    | Registered
    | Waiting
    | Leaving(outcome: Outcome)
    | Returned(outcome: Outcome)

  datatype ReaderState =
    | Reading
    | Delivering(channel: int, response: Response)
    | ClosingOne(channel: int)
    | Failing
    | Draining(channels: set<int>)
    | Finished

  /** transportErr: the read error, or ErrClientClosed (None) when there is none. */
  datatype ClientState = ClientState(
    nextID: nat,
    calls: map<int, CallState>,
    channels: map<int, Channel>,
    pending: map<int, int>,
    readErr: Option<string>,
    done: bool,
    reader: ReaderState)

  const INITIAL: ClientState := ClientState(1, map[], map[], map[], None, false, Reading)

  datatype Step =
    | StartCall
    | Register(id: int)
    | WriteSucceeds(id: int)
    | WriteFails(id: int)
    | Receive(id: int)
    | Timeout(id: int)
    | SeeDone(id: int)
    | RemovePending(id: int)
    | ReadResponse(response: Response)
    | Send
    | CloseSent
    | ReadFails(error: string)
    | SwapPending
    | CloseDrained(channel: int)
    | CloseDone

  predicate InState(s: ClientState, id: int, state: CallState) {
    id in s.calls && s.calls[id] == state
  }

  predicate Enabled(s: ClientState, step: Step) {
    match step
    case StartCall => true
    case Register(id) => InState(s, id, Allocated)
    case WriteSucceeds(id) => InState(s, id, Registered)
    case WriteFails(id) => InState(s, id, Registered)
    case Receive(id) => InState(s, id, Waiting) && id in s.channels
      && (s.channels[id].queue != [] || s.channels[id].closes > 0)
    case Timeout(id) => InState(s, id, Waiting)
    case SeeDone(id) => InState(s, id, Waiting) && s.done
    case RemovePending(id) => id in s.calls && s.calls[id].Leaving?
    case ReadResponse(_) => s.reader == Reading
    case Send => s.reader.Delivering? && s.reader.channel in s.channels
    case CloseSent => s.reader.ClosingOne? && s.reader.channel in s.channels
    case ReadFails(_) => s.reader == Reading
    case SwapPending => s.reader == Failing
    case CloseDrained(ch) => s.reader.Draining? && ch in s.reader.channels && ch in s.channels
    case CloseDone => s.reader == Draining({})
  }

  function Closed(channels: map<int, Channel>, ch: int): map<int, Channel>
    requires ch in channels
  {
    channels[ch := channels[ch].(closes := channels[ch].closes + 1)]
  }

  function ChannelsOf(pending: map<int, int>): set<int> {
    set id | id in pending :: pending[id]
  }

  function Apply(s: ClientState, step: Step): ClientState
    requires Enabled(s, step)
  {
    match step
    case StartCall =>
      s.(nextID := s.nextID + 1, calls := s.calls[s.nextID := Allocated],
         channels := s.channels[s.nextID := Channel([], 0, 0)])
    case Register(id) =>
      if s.done then s.(calls := s.calls[id := Returned(NotSent(s.readErr))])
      else if id in s.pending then s.(calls := s.calls[id := Returned(DuplicateID)])
      else s.(calls := s.calls[id := Registered], pending := s.pending[id := id])
    case WriteSucceeds(id) => s.(calls := s.calls[id := Waiting])
    case WriteFails(id) => s.(calls := s.calls[id := Leaving(SendFailed)])
    case Receive(id) =>
      var ch := s.channels[id];
      if ch.queue != [] then
        s.(calls := s.calls[id := Returned(GotResponse(ch.queue[0]))],
           channels := s.channels[id := ch.(queue := ch.queue[1..])])
      else s.(calls := s.calls[id := Returned(TransportFailed(s.readErr))])
    case Timeout(id) => s.(calls := s.calls[id := Leaving(TimedOut)])
    case SeeDone(id) => s.(calls := s.calls[id := Leaving(TransportFailed(s.readErr))])
    case RemovePending(id) => s.(calls := s.calls[id := Returned(s.calls[id].outcome)], pending := s.pending - {id})
    case ReadResponse(response) => (
      match ParseResponseID(response.id)
      case None => s
      case Some(id) =>
        if id in s.pending then s.(pending := s.pending - {id}, reader := Delivering(s.pending[id], response)) else s)
    case Send =>
      var ch := s.channels[s.reader.channel];
      s.(channels := s.channels[s.reader.channel :=
                                ch.(queue := ch.queue + [s.reader.response], sends := ch.sends + 1)],
         reader := ClosingOne(s.reader.channel))
    case CloseSent => s.(channels := Closed(s.channels, s.reader.channel), reader := Reading)
    case ReadFails(error) => s.(readErr := if s.readErr == None then Some(error) else s.readErr, reader := Failing)
    case SwapPending => s.(pending := map[], reader := Draining(ChannelsOf(s.pending)))
    case CloseDrained(ch) => s.(channels := Closed(s.channels, ch), reader := Draining(s.reader.channels - {ch}))
    case CloseDone => s.(done := true, reader := Finished)
  }

  /** Ids are handed out in order, and a pending id stands for the channel of that call. */
  ghost predicate Owned(s: ClientState) {
    && s.nextID >= 1
    && s.calls.Keys == s.channels.Keys
    && (forall id :: id in s.calls <==> 1 <= id < s.nextID)
    && (forall id :: id in s.pending ==> id in s.calls && s.pending[id] == id)
  }

  /** Nobody has sent on the channel or closed it. */
  predicate Fresh(s: ClientState, ch: int) {
    ch in s.channels && s.channels[ch] == Channel([], 0, 0)
  }

  /** The reader loop holds this channel, taken out of the pending map. */
  predicate Held(s: ClientState, ch: int) {
    match s.reader
    case Delivering(c, _) => c == ch
    case ClosingOne(c) => c == ch
    case Draining(cs) => ch in cs
    case _ => false
  }

  predicate Answers(response: Response, id: int) {
    ParseResponseID(response.id) == Some(id)
  }

  ghost predicate PendingOk(s: ClientState) {
    forall id :: id in s.pending ==> PendingCallOk(s, id)
  }

  /** A pending call has not returned, and nobody has touched its channel. */
  predicate PendingCallOk(s: ClientState, id: int) {
    Fresh(s, id) && !Held(s, id) && id in s.calls && !s.calls[id].Allocated? && !s.calls[id].Returned?
  }

  ghost predicate AllocatedOk(s: ClientState) {
    forall id :: InState(s, id, Allocated) ==> Fresh(s, id) && !Held(s, id) && id !in s.pending
  }

  ghost predicate ChannelsOk(s: ClientState) {
    forall id :: id in s.channels ==>
      |s.channels[id].queue| <= s.channels[id].sends <= 1 && s.channels[id].closes <= 1
  }

  ghost predicate ReaderOk(s: ClientState) {
    && (s.done <==> s.reader == Finished)
    && (s.readErr.Some? <==> s.reader == Failing || s.reader.Draining? || s.reader == Finished)
    && (forall ch :: Held(s, ch) ==> HeldOk(s, ch))
  }

  predicate HeldOk(s: ClientState, ch: int) {
    match s.reader
    case Delivering(_, response) => Fresh(s, ch) && Answers(response, ch)
    case ClosingOne(_) => ch in s.channels && s.channels[ch].sends == 1 && s.channels[ch].closes == 0
    case _ => Fresh(s, ch)
  }

  /** A call that waits can count on being answered, on its channel being closed, or on done. */
  predicate Expected(s: ClientState, id: int) {
    id in s.pending || Held(s, id) || (id in s.channels && s.channels[id].closes > 0)
  }

  ghost predicate CallsOk(s: ClientState) {
    forall id :: id in s.calls ==> CallOk(s, id)
  }

  predicate CallOk(s: ClientState, id: int)
    requires id in s.calls
  {
    match s.calls[id]
    case Allocated => true
    case Registered => Expected(s, id)
    case Waiting => Expected(s, id)
    case Leaving(o) => OutcomeOk(s.readErr, o)
    case Returned(o) => OutcomeOk(s.readErr, o)
  }

  predicate OutcomeOk(readErr: Option<string>, o: Outcome) {
    match o
    case NotSent(e) => e.Some? && e == readErr
    case TransportFailed(e) => e.Some? && e == readErr
    case DuplicateID => false
    case _ => true
  }

  /** A channel closed with nothing sent on it was closed because the transport failed. */
  ghost predicate ClosedUnsent(s: ClientState) {
    forall id :: id in s.channels && s.channels[id].closes > 0 && s.channels[id].sends == 0 ==> s.readErr.Some?
  }

  /** An answer leaves its channel only with the call that returns. */
  ghost predicate AnswersWait(s: ClientState) {
    forall id :: id in s.calls && id in s.channels && s.channels[id].sends == 1 && !s.calls[id].Returned? ==>
      s.channels[id].queue != []
  }

  ghost predicate Invariant(s: ClientState) {
    && Owned(s) && PendingOk(s) && AllocatedOk(s) && ChannelsOk(s)
    && ReaderOk(s) && CallsOk(s) && ClosedUnsent(s) && AnswersWait(s)
  }

  lemma PendingChannels(s: ClientState)
    requires Owned(s)
    ensures ChannelsOf(s.pending) == s.pending.Keys
  {
    forall id | id in s.pending.Keys ensures id in ChannelsOf(s.pending) {
      assert s.pending[id] == id;
    }
  }

  /** The call a step belongs to. */
  function Owner(step: Step): Option<int> {
    match step
    case Register(id) => Some(id)
    case WriteSucceeds(id) => Some(id)
    case WriteFails(id) => Some(id)
    case Receive(id) => Some(id)
    case Timeout(id) => Some(id)
    case SeeDone(id) => Some(id)
    case RemovePending(id) => Some(id)
    case _ => None
  }

  /** What the reader is about to send on is fresh, and what it is about to close is open. */
  lemma ReaderHolds(s: ClientState, step: Step)
    requires ReaderOk(s) && Enabled(s, step)
    ensures step.Send? ==> Fresh(s, s.reader.channel) && Answers(s.reader.response, s.reader.channel)
    ensures step.CloseSent? ==> s.channels[s.reader.channel].sends == 1 && s.channels[s.reader.channel].closes == 0
    ensures step.CloseDrained? ==> Fresh(s, step.channel)
  {
    match step
    case Send => assert Held(s, s.reader.channel);
    case CloseSent => assert Held(s, s.reader.channel);
    case CloseDrained(ch) => assert Held(s, ch);
    case _ =>
  }

  lemma StepKeepsOwned(s: ClientState, step: Step)
    requires Invariant(s) && Enabled(s, step)
    ensures Owned(Apply(s, step))
  {
    if Owner(step).Some? {
      CallKeepsOwned(s, step, Owner(step).value);
    }
  }

  lemma CallKeepsOwned(s: ClientState, step: Step, id: int)
    requires Owned(s) && Enabled(s, step) && Owner(step) == Some(id)
    ensures Owned(Apply(s, step))
  {
  }

  /** The step of a call leaves the reader and the other calls as they are. */
  lemma CallStepFrame(s: ClientState, step: Step, id: int)
    requires Enabled(s, step) && Owner(step) == Some(id)
    ensures var t := Apply(s, step);
            && t.reader == s.reader && t.readErr == s.readErr && t.done == s.done && t.nextID == s.nextID
            && id in s.calls && t.calls == s.calls[id := t.calls[id]] && CallRank(t.calls[id]) < CallRank(s.calls[id])
            && (forall k | k != id :: (k in t.pending <==> k in s.pending))
            && (forall k | k != id && k in s.pending :: t.pending[k] == s.pending[k])
            && (!step.Receive? ==> t.channels == s.channels)
            && (step.Receive? ==> t.pending == s.pending)
  {
  }

  /** A step of the reader moves no call. */
  lemma ReaderStepFrame(s: ClientState, step: Step)
    requires Enabled(s, step) && Owner(step).None? && !step.StartCall?
    ensures var t := Apply(s, step);
            && t.calls == s.calls && t.nextID == s.nextID
            && forall k :: k in t.pending ==> k in s.pending && t.pending[k] == s.pending[k]
  {
  }

  lemma StepKeepsPendingOk(s: ClientState, step: Step, id: int)
    requires Invariant(s) && Enabled(s, step) && id in Apply(s, step).pending
    ensures PendingCallOk(Apply(s, step), id)
  {
    if id in s.pending {
      assert PendingCallOk(s, id);
    }
    if Owner(step).Some? {
      CallKeepsPending(s, step, Owner(step).value, id);
    } else {
      ReaderKeepsPending(s, step, id);
    }
  }

  lemma CallKeepsPending(s: ClientState, step: Step, caller: int, id: int)
    requires AllocatedOk(s) && Enabled(s, step) && Owner(step) == Some(caller) && id in Apply(s, step).pending
    requires id in s.pending ==> PendingCallOk(s, id)
    ensures PendingCallOk(Apply(s, step), id)
  {
    CallStepFrame(s, step, caller);
  }

  lemma ReaderKeepsPending(s: ClientState, step: Step, id: int)
    requires Owned(s) && Enabled(s, step) && Owner(step).None? && id in Apply(s, step).pending
    requires id in s.pending ==> PendingCallOk(s, id)
    ensures PendingCallOk(Apply(s, step), id)
  {
    assert id in s.pending;
  }

  lemma StepKeepsAllocatedOk(s: ClientState, step: Step, id: int)
    requires Invariant(s) && Enabled(s, step) && InState(Apply(s, step), id, Allocated)
    ensures Fresh(Apply(s, step), id) && !Held(Apply(s, step), id) && id !in Apply(s, step).pending
  {
    PendingChannels(s);
    if id == s.nextID {
      forall ch | Held(s, ch) ensures ch in s.calls {
        assert HeldOk(s, ch);
      }
      assert !Held(s, id);
    } else {
      assert InState(s, id, Allocated);
    }
  }

  lemma StepKeepsChannelsOk(s: ClientState, step: Step)
    requires Invariant(s) && Enabled(s, step)
    ensures ChannelsOk(Apply(s, step))
  {
    ReaderHolds(s, step);
  }

  lemma StepKeepsHeldOk(s: ClientState, step: Step, ch: int)
    requires Invariant(s) && Enabled(s, step) && Held(Apply(s, step), ch)
    ensures HeldOk(Apply(s, step), ch)
  {
    PendingChannels(s);
    ReaderHolds(s, step);
    if Held(s, ch) {
      assert HeldOk(s, ch);
    }
  }

  /** A call that can expect an end of its waiting goes on to expect it until it stops waiting. */
  lemma StepKeepsExpected(s: ClientState, step: Step, id: int)
    requires Invariant(s) && Enabled(s, step) && Expected(s, id) && step != RemovePending(id)
    ensures Expected(Apply(s, step), id)
  {
    PendingChannels(s);
  }

  lemma StepKeepsCallOk(s: ClientState, step: Step, id: int)
    requires Invariant(s) && Enabled(s, step) && id in Apply(s, step).calls
    ensures CallOk(Apply(s, step), id)
  {
    if id in s.calls {
      assert CallOk(s, id);
      if Expected(s, id) && step != RemovePending(id) {
        StepKeepsExpected(s, step, id);
      }
    }
  }

  lemma StepKeepsAnswers(s: ClientState, step: Step)
    requires Invariant(s) && Enabled(s, step)
    ensures ClosedUnsent(Apply(s, step)) && AnswersWait(Apply(s, step))
  {
    ReaderHolds(s, step);
  }

  lemma StepKeepsInvariant(s: ClientState, step: Step)
    requires Invariant(s) && Enabled(s, step)
    ensures Invariant(Apply(s, step))
  {
    StepKeepsOwned(s, step);
    forall id | id in Apply(s, step).pending ensures PendingCallOk(Apply(s, step), id) {
      StepKeepsPendingOk(s, step, id);
    }
    forall id | InState(Apply(s, step), id, Allocated)
      ensures Fresh(Apply(s, step), id) && !Held(Apply(s, step), id) && id !in Apply(s, step).pending
    {
      StepKeepsAllocatedOk(s, step, id);
    }
    StepKeepsChannelsOk(s, step);
    StepKeepsAnswers(s, step);
    forall ch | Held(Apply(s, step), ch) ensures HeldOk(Apply(s, step), ch) {
      StepKeepsHeldOk(s, step, ch);
    }
    forall id | id in Apply(s, step).calls ensures CallOk(Apply(s, step), id) {
      StepKeepsCallOk(s, step, id);
    }
  }

  // --- whole runs ---

  /** The state after these steps, when each is enabled in its turn. */
  function RunFrom(s: ClientState, steps: seq<Step>): Option<ClientState> {
    if steps == [] then Some(s)
    else
      match RunFrom(s, steps[..|steps| - 1])
      case None => None
      case Some(t) => if Enabled(t, steps[|steps| - 1]) then Some(Apply(t, steps[|steps| - 1])) else None
  }

  ghost predicate Reaches(steps: seq<Step>, s: ClientState) {
    RunFrom(INITIAL, steps) == Some(s)
  }

  lemma {:induction false} RunKeepsInvariant(s: ClientState, steps: seq<Step>)
    requires Invariant(s) && RunFrom(s, steps).Some?
    ensures Invariant(RunFrom(s, steps).value)
  {
    if steps != [] {
      RunKeepsInvariant(s, steps[..|steps| - 1]);
      StepKeepsInvariant(RunFrom(s, steps[..|steps| - 1]).value, steps[|steps| - 1]);
    }
  }

  /**
   In every run, every channel is sent on at most once and closed at most once,
   a send finds its channel open and empty (so it neither blocks nor panics),
   and a close finds its channel open.
   */
  lemma ChannelDiscipline(steps: seq<Step>, s: ClientState)
    requires Reaches(steps, s)
    ensures forall ch :: ch in s.channels ==> s.channels[ch].sends <= 1 && s.channels[ch].closes <= 1
    ensures Enabled(s, Send) ==> s.channels[s.reader.channel] == Channel([], 0, 0)
    ensures Enabled(s, CloseSent) ==> s.channels[s.reader.channel].closes == 0
    ensures forall ch :: Enabled(s, CloseDrained(ch)) ==> s.channels[ch].closes == 0
  {
    RunKeepsInvariant(INITIAL, steps);
    if Enabled(s, Send) {
      ReaderHolds(s, Send);
    }
    if Enabled(s, CloseSent) {
      ReaderHolds(s, CloseSent);
    }
    forall ch | Enabled(s, CloseDrained(ch)) ensures s.channels[ch].closes == 0 {
      ReaderHolds(s, CloseDrained(ch));
    }
  }

  /** The first response with this id that was read after the call was registered. */
  ghost function FirstAnswer(steps: seq<Step>, id: int): Option<Response> {
    if steps == [] then None
    else
      var before, last := steps[..|steps| - 1], steps[|steps| - 1];
      match FirstAnswer(before, id)
      case Some(r) => Some(r)
      case None =>
        if last.ReadResponse? && Answers(last.response, id) && Register(id) in before then Some(last.response) else None
  }

  lemma {:induction false} FirstAnswerAnswers(steps: seq<Step>, id: int)
    ensures FirstAnswer(steps, id).Some? ==> Answers(FirstAnswer(steps, id).value, id)
  {
    if steps != [] {
      FirstAnswerAnswers(steps[..|steps| - 1], id);
    }
  }

  ghost predicate HistoryOk(s: ClientState, steps: seq<Step>, id: int) {
    && (id !in s.calls || s.calls[id].Allocated? ==> Register(id) !in steps && FirstAnswer(steps, id) == None)
    && (id in s.pending ==> FirstAnswer(steps, id) == None && Register(id) in steps)
    && (s.reader.Delivering? && s.reader.channel == id ==> FirstAnswer(steps, id) == Some(s.reader.response))
    && (id in s.channels && s.channels[id].queue != [] ==> FirstAnswer(steps, id) == Some(s.channels[id].queue[0]))
    && (id in s.calls && s.calls[id].Leaving? ==> !s.calls[id].outcome.GotResponse?)
    && (id in s.calls && s.calls[id].Returned? && s.calls[id].outcome.GotResponse? ==>
          FirstAnswer(steps, id) == Some(s.calls[id].outcome.response) && Answers(s.calls[id].outcome.response, id))
  }

  lemma FirstAnswerStep(steps: seq<Step>, step: Step, id: int)
    ensures FirstAnswer(steps + [step], id) ==
            match FirstAnswer(steps, id)
            case Some(r) => Some(r)
            case None => if step.ReadResponse? && Answers(step.response, id) && Register(id) in steps
              then Some(step.response) else None
  {
    assert (steps + [step])[..|steps|] == steps;
  }

  lemma StepKeepsHistory(s: ClientState, steps: seq<Step>, step: Step, id: int)
    requires Invariant(s) && HistoryOk(s, steps, id) && Enabled(s, step)
    ensures HistoryOk(Apply(s, step), steps + [step], id)
  {
    if Owner(step).Some? {
      CallKeepsHistory(s, steps, step, id);
    } else {
      ReaderKeepsHistory(s, steps, step, id);
    }
  }

  lemma CallKeepsHistory(s: ClientState, steps: seq<Step>, step: Step, id: int)
    requires Owned(s) && PendingOk(s) && ChannelsOk(s) && HistoryOk(s, steps, id) && Enabled(s, step)
             && Owner(step).Some?
    ensures HistoryOk(Apply(s, step), steps + [step], id)
  {
    FirstAnswerStep(steps, step, id);
    FirstAnswerAnswers(steps, id);
    CallStepFrame(s, step, Owner(step).value);
  }

  lemma ReaderKeepsHistory(s: ClientState, steps: seq<Step>, step: Step, id: int)
    requires Invariant(s) && HistoryOk(s, steps, id) && Enabled(s, step) && Owner(step).None?
    ensures HistoryOk(Apply(s, step), steps + [step], id)
  {
    FirstAnswerStep(steps, step, id);
    if step.Send? {
      ReaderHolds(s, step);
    }
  }

  lemma {:induction false} RunKeepsHistory(steps: seq<Step>, s: ClientState, id: int)
    requires Reaches(steps, s)
    ensures HistoryOk(s, steps, id)
  {
    if steps != [] {
      var before, last := steps[..|steps| - 1], steps[|steps| - 1];
      var t := RunFrom(INITIAL, before).value;
      RunKeepsInvariant(INITIAL, before);
      RunKeepsHistory(before, t, id);
      StepKeepsHistory(t, before, last, id);
      assert before + [last] == steps;
    }
  }

  // --- what happens once the transport has failed ---

  /** How many steps a call can still make. */
  function CallRank(state: CallState): nat {
    match state
    case Allocated => 4
    case Registered => 3
    case Waiting => 2
    case Leaving(_) => 1
    case Returned(_) => 0
  }

  function CallsRank(calls: map<int, CallState>, ids: nat): nat {
    if ids == 0 then 0
    else CallsRank(calls, ids - 1) + (if ids in calls then CallRank(calls[ids]) else 0)
  }

  /** How many steps the reader can still make; while it fails, any call may still join the ones to close. */
  function ReaderRank(s: ClientState): nat {
    match s.reader
    case Failing => s.nextID + 2
    case Draining(chs) => |chs| + 1
    case _ => 0
  }

  function Rank(s: ClientState): nat {
    ReaderRank(s) + CallsRank(s.calls, s.nextID)
  }

  lemma {:induction false} CallsRankFalls(a: map<int, CallState>, b: map<int, CallState>, ids: nat, id: int)
    requires forall k :: k != id ==> (k in a <==> k in b) && (k in a ==> a[k] == b[k])
    requires id in a && id in b && CallRank(b[id]) < CallRank(a[id])
    ensures CallsRank(b, ids) <= CallsRank(a, ids)
    ensures 1 <= id <= ids ==> CallsRank(b, ids) < CallsRank(a, ids)
  {
    if ids > 0 {
      CallsRankFalls(a, b, ids - 1, id);
    }
  }

  lemma {:induction false} FewIds(chs: set<int>, n: nat)
    requires forall ch :: ch in chs ==> 1 <= ch <= n
    ensures |chs| <= n
  {
    if n > 0 {
      FewIds(chs - {n}, n - 1);
    } else {
      forall ch | ch in chs ensures false {
      }
    }
  }

  lemma StepLowersRank(s: ClientState, step: Step)
    requires Invariant(s) && Enabled(s, step) && s.readErr.Some? && !step.StartCall?
    ensures Owned(Apply(s, step)) && Rank(Apply(s, step)) < Rank(s)
  {
    StepKeepsOwned(s, step);
    if Owner(step).Some? {
      CallLowersRank(s, step, Owner(step).value);
    } else {
      ReaderStepFrame(s, step);
      ReaderLowersRank(s, step);
    }
  }

  lemma CallLowersRank(s: ClientState, step: Step, id: int)
    requires Owned(s) && Enabled(s, step) && Owner(step) == Some(id)
    ensures Rank(Apply(s, step)) < Rank(s)
  {
    CallStepFrame(s, step, id);
    CallsRankFalls(s.calls, Apply(s, step).calls, s.nextID, id);
  }

  lemma ReaderLowersRank(s: ClientState, step: Step)
    requires Owned(s) && ReaderOk(s) && Enabled(s, step) && s.readErr.Some? && Owner(step).None? && !step.StartCall?
    ensures ReaderRank(Apply(s, step)) < ReaderRank(s)
  {
    PendingChannels(s);
    FewIds(ChannelsOf(s.pending), s.nextID);
  }

  /** A call that only time could still move: nothing it waits for has happened. */
  ghost predicate Blocked(s: ClientState, id: int) {
    && id in s.calls && !s.calls[id].Returned?
    && forall step :: Owner(step) == Some(id) && Enabled(s, step) ==> step.Timeout?
  }

  predicate Silent(s: ClientState, ch: int) {
    ch in s.channels && s.channels[ch].queue == [] && s.channels[ch].closes == 0
  }

  ghost predicate Stuck(s: ClientState) {
    forall step :: Enabled(s, step) ==> step.StartCall? || step.Timeout?
  }

  /** While the transport lives, a call blocks only as long as the answer to it has not been read or closed off. */
  lemma BlockedIsUnanswered(steps: seq<Step>, s: ClientState, id: int)
    requires Reaches(steps, s)
    ensures Blocked(s, id) <==> InState(s, id, Waiting) && !s.done && Silent(s, id)
    ensures Blocked(s, id) ==> id in s.pending || Held(s, id)
  {
    RunKeepsInvariant(INITIAL, steps);
    if id in s.calls && !s.calls[id].Returned? {
      assert CallOk(s, id);
      var next := if s.calls[id].Allocated? then Register(id)
                  else if s.calls[id].Registered? then WriteSucceeds(id)
                  else if s.calls[id].Leaving? then RemovePending(id)
                  else if s.done then SeeDone(id) else Receive(id);
      assert Owner(next) == Some(id);
    }
  }

  /**
   After the transport failed: the calls already made and the reader loop can
   together take only so many steps, and when they can take no more, every call
   has returned (also one registered between the swap of the pending map and the
   closing of done) and done is closed.
   */
  lemma {:induction false} FailureEndsEveryCall(before: seq<Step>, s: ClientState, steps: seq<Step>, t: ClientState)
    requires Reaches(before, s) && s.readErr.Some? && RunFrom(s, steps) == Some(t)
    requires forall k :: 0 <= k < |steps| ==> !steps[k].StartCall?
    ensures |steps| + Rank(t) <= Rank(s)
    ensures Stuck(t) ==> t.done && forall id :: id in t.calls ==> t.calls[id].Returned?
  {
    RunKeepsInvariant(INITIAL, before);
    RunKeepsInvariant(s, steps);
    RankFallsOverRun(s, steps);
    if Stuck(t) {
      StuckMeansReturned(t);
    }
  }

  lemma {:induction false} RankFallsOverRun(s: ClientState, steps: seq<Step>)
    requires Invariant(s) && s.readErr.Some? && RunFrom(s, steps).Some?
    requires forall k :: 0 <= k < |steps| ==> !steps[k].StartCall?
    ensures var t := RunFrom(s, steps).value; Invariant(t) && t.readErr.Some? && |steps| + Rank(t) <= Rank(s)
  {
    if steps != [] {
      var init := steps[..|steps| - 1];
      RankFallsOverRun(s, init);
      StepKeepsInvariant(RunFrom(s, init).value, steps[|steps| - 1]);
      StepLowersRank(RunFrom(s, init).value, steps[|steps| - 1]);
    }
  }

  lemma StuckMeansReturned(t: ClientState)
    requires Invariant(t) && t.readErr.Some? && Stuck(t)
    ensures t.done && forall id :: id in t.calls ==> t.calls[id].Returned?
  {
    assert !Enabled(t, SwapPending) && !Enabled(t, CloseDone);
    forall ch ensures !(t.reader.Draining? && ch in t.reader.channels) {
      assert Held(t, ch) ==> HeldOk(t, ch);
      assert !Enabled(t, CloseDrained(ch));
    }
    forall id | id in t.calls ensures t.calls[id].Returned? {
      assert !Enabled(t, Register(id)) && !Enabled(t, WriteSucceeds(id)) && !Enabled(t, SeeDone(id))
             && !Enabled(t, RemovePending(id));
    }
  }

  // --- the client object ---

  /** What the reader loop finds next on the wire. */
  datatype Inbound = Answer(response: Response) | Notification | ServerRequest(replied: bool) | Skipped | Broken

  predicate Fails(inbound: Inbound) {
    inbound == Broken || inbound == ServerRequest(false)
  }

  /** routeResponse, from its lock section to the close, when nothing else happens in between. */
  function Routed(s: ClientState, response: Response): ClientState
    requires forall id :: id in s.pending ==> s.pending[id] in s.channels
  {
    match ParseResponseID(response.id)
    case None => s
    case Some(id) =>
      if id !in s.pending then s
      else
        var ch := s.channels[s.pending[id]];
        s.(pending := s.pending - {id},
           channels := s.channels[s.pending[id] := Channel(ch.queue + [response], ch.sends + 1, ch.closes + 1)])
  }

  lemma RoutedIsARun(s: ClientState, response: Response)
    requires s.reader == Reading && forall id :: id in s.pending ==> s.pending[id] in s.channels
    ensures RunFrom(s, if Routed(s, response) == s then [ReadResponse(response)]
                    else [ReadResponse(response), Send, CloseSent])
            == Some(Routed(s, response))
  {
    RunOfOne(s, ReadResponse(response));
    if Routed(s, response) != s {
      var id := ParseResponseID(response.id).value;
      var s1 := Apply(s, ReadResponse(response));
      assert s1.reader == Delivering(s.pending[id], response);
      SendAndClose(s1, s.pending[id], response);
      var s2 := Apply(s1, Send);
      RunStep(s, [ReadResponse(response)], Send);
      RunStep(s, [ReadResponse(response)] + [Send], CloseSent);
      assert [ReadResponse(response)] + [Send] + [CloseSent] == [ReadResponse(response), Send, CloseSent];
    }
  }

  lemma RunOfOne(s: ClientState, step: Step)
    requires Enabled(s, step)
    ensures RunFrom(s, [step]) == Some(Apply(s, step))
  {
    assert [step][..0] == [];
  }

  /** Sending on a channel and closing it. */
  lemma SendAndClose(s: ClientState, c: int, response: Response)
    requires s.reader == Delivering(c, response) && c in s.channels
    ensures var t := Apply(s, Send);
            && Enabled(t, CloseSent)
            && var ch := s.channels[c];
            Apply(t, CloseSent) == s.(channels :=
                                      s.channels[c := Channel(ch.queue + [response], ch.sends + 1, ch.closes + 1)],
                                      reader := Reading)
  {
    var ch := s.channels[c];
    assert Apply(Apply(s, Send), CloseSent).channels
           == s.channels[c := Channel(ch.queue + [response], ch.sends + 1, ch.closes + 1)];
  }

  /** The responses that were read, in order. */
  function ReadsOf(steps: seq<Step>): seq<Response> {
    if steps == [] then []
    else
      var last := steps[|steps| - 1];
      ReadsOf(steps[..|steps| - 1]) + if last.ReadResponse? then [last.response] else []
  }

  lemma {:induction false} ReadsOfAppend(a: seq<Step>, b: seq<Step>)
    ensures ReadsOf(a + b) == ReadsOf(a) + ReadsOf(b)
  {
    if b == [] {
      assert a + b == a;
    } else {
      ReadsOfAppend(a, b[..|b| - 1]);
      assert (a + b)[..|a + b| - 1] == a + b[..|b| - 1];
    }
  }

  lemma ReadsOfOne(step: Step)
    ensures ReadsOf([step]) == if step.ReadResponse? then [step.response] else []
  {
    assert [step][..0] == [];
  }

  /** The responses on the wire up to the first message that ends the loop. */
  function AnswersIn(inbound: seq<Inbound>): seq<Response> {
    if inbound == [] || Fails(inbound[0]) then []
    else (if inbound[0].Answer? then [inbound[0].response] else []) + AnswersIn(inbound[1..])
  }

  /** Every channel of the set closed once more. */
  function CloseAll(channels: map<int, Channel>, chs: set<int>): map<int, Channel> {
    map ch | ch in channels :: if ch in chs then channels[ch].(closes := channels[ch].closes + 1) else channels[ch]
  }

  /** failPending, when nothing else happens in between. */
  function Failed(s: ClientState, error: string): ClientState {
    s.(readErr := if s.readErr == None then Some(error) else s.readErr, pending := map[],
       channels := CloseAll(s.channels, ChannelsOf(s.pending)), reader := Draining({}))
  }

  lemma RunStep(s: ClientState, steps: seq<Step>, step: Step)
    requires RunFrom(s, steps).Some? && Enabled(RunFrom(s, steps).value, step)
    ensures RunFrom(s, steps + [step]) == Some(Apply(RunFrom(s, steps).value, step))
  {
    assert (steps + [step])[..|steps|] == steps;
  }

  lemma {:induction false} DrainIsARun(s: ClientState, before: seq<Step>, t: ClientState) returns (steps: seq<Step>)
    requires RunFrom(s, before) == Some(t) && t.reader.Draining? && t.reader.channels <= t.channels.Keys
    ensures RunFrom(s, steps) == Some(t.(channels := CloseAll(t.channels, t.reader.channels), reader := Draining({})))
    ensures ReadsOf(steps) == ReadsOf(before)
    decreases if t.reader.Draining? then t.reader.channels else {}
  {
    var chs := t.reader.channels;
    if chs == {} {
      steps := before;
      assert CloseAll(t.channels, chs) == t.channels;
    } else {
      var ch := SomeMember(chs);
      RunStep(s, before, CloseDrained(ch));
      ReadsOfAppend(before, [CloseDrained(ch)]);
      ReadsOfOne(CloseDrained(ch));
      var t' := Apply(t, CloseDrained(ch));
      steps := DrainIsARun(s, before + [CloseDrained(ch)], t');
      CloseAllFromOne(t.channels, chs, ch);
    }
  }

  lemma CloseAllFromOne(channels: map<int, Channel>, chs: set<int>, ch: int)
    requires ch in channels && ch in chs
    ensures CloseAll(Closed(channels, ch), chs - {ch}) == CloseAll(channels, chs)
  {
    assert Closed(channels, ch).Keys == channels.Keys;
  }

  /** failPending is one of the runs of the transition system. */
  lemma FailedIsARun(s: ClientState, error: string) returns (steps: seq<Step>)
    requires s.reader == Reading && ChannelsOf(s.pending) <= s.channels.Keys
    ensures RunFrom(s, steps) == Some(Failed(s, error)) && ReadsOf(steps) == []
  {
    RunStep(s, [], ReadFails(error));
    RunStep(s, [] + [ReadFails(error)], SwapPending);
    ReadsOfAppend([] + [ReadFails(error)], [SwapPending]);
    ReadsOfAppend([], [ReadFails(error)]);
    ReadsOfOne(ReadFails(error));
    ReadsOfOne(SwapPending);
    steps := DrainIsARun(s, [] + [ReadFails(error)] + [SwapPending], Apply(Apply(s, ReadFails(error)), SwapPending));
  }

  class Client {
    var nextID: nat
    var channels: map<int, Channel>
    var pending: map<int, int>
    var readErr: Option<string>
    var done: bool
    ghost var calls: map<int, CallState>
    ghost var reader: ReaderState

    ghost function State(): ClientState
      reads this
    {
      ClientState(nextID, calls, channels, pending, readErr, done, reader)
    }

    constructor ()
      ensures State() == INITIAL && Invariant(State())
    {
      nextID, channels, pending, readErr, done := 1, map[], map[], None, false;
      calls, reader := map[], Reading;
    }

    /** The start of Call: a fresh id and a fresh channel. */
    method StartCall() returns (id: int)
      modifies this
      ensures id == old(nextID) && State() == Apply(old(State()), Step.StartCall)
    {
      id := nextID;
      nextID := nextID + 1;
      channels := channels[id := Channel([], 0, 0)];
      calls := calls[id := Allocated];
    }

    method RegisterPending(id: int) returns (failed: Option<Outcome>)
      requires Enabled(State(), Register(id))
      modifies this
      ensures State() == Apply(old(State()), Register(id))
      ensures failed == if old(done) then Some(NotSent(old(readErr)))
                        else if id in old(pending) then Some(DuplicateID) else None
    {
      if done {
        failed := Some(NotSent(readErr));
        calls := calls[id := Returned(NotSent(readErr))];
        return;
      }
      if id in pending {
        failed := Some(DuplicateID);
        calls := calls[id := Returned(DuplicateID)];
        return;
      }
      pending := pending[id := id];
      calls := calls[id := Registered];
      failed := None;
    }

    method RemovePendingID(id: int)
      requires Enabled(State(), RemovePending(id))
      modifies this
      ensures State() == Apply(old(State()), RemovePending(id))
    {
      pending := pending - {id};
      calls := calls[id := Returned(calls[id].outcome)];
    }

    /** Puts the response on the channel of the pending call it answers, then closes the channel. */
    method RouteResponse(response: Response)
      requires forall id :: id in pending ==> pending[id] in channels
      modifies this
      ensures State() == Routed(old(State()), response)
    {
      var id := ParseResponseID(response.id);
      if id.None? || id.value !in pending {
        return;
      }
      var responseCh := pending[id.value];
      pending := pending - {id.value};
      var ch := channels[responseCh];
      channels := channels[responseCh := ch.(queue := ch.queue + [response], sends := ch.sends + 1)];
      channels := channels[responseCh := channels[responseCh].(closes := ch.closes + 1)];
      assert channels == old(channels)[responseCh := Channel(ch.queue + [response], ch.sends + 1, ch.closes + 1)];
    }

    method SetReadErr(error: string)
      modifies this`readErr
      ensures readErr == if old(readErr) == None then Some(error) else old(readErr)
    {
      if readErr == None {
        readErr := Some(error);
      }
    }

    /** Records the error, forgets all pending calls, then closes the channel of each. */
    method FailPending(error: string)
      requires ChannelsOf(pending) <= channels.Keys
      modifies this
      ensures State() == Failed(old(State()), error)
    {
      SetReadErr(error);
      var all := ChannelsOf(pending);
      pending := map[];
      var toClose := all;
      while toClose != {}
        invariant toClose <= all && channels == CloseAll(old(channels), all - toClose)
        invariant readErr == (if old(readErr) == None then Some(error) else old(readErr)) && pending == map[]
        invariant calls == old(calls) && nextID == old(nextID) && done == old(done)
        decreases toClose
      {
        ghost var some := SomeMember(toClose);
        var ch :| ch in toClose;
        channels := channels[ch := channels[ch].(closes := channels[ch].closes + 1)];
        toClose := toClose - {ch};
      }
      assert all - {} == all;
      reader := Draining({});
    }

    /** The end of readLoop: everything pending fails, then done is closed. */
    method EndLoop(error: string) returns (ghost steps: seq<Step>)
      requires reader == Reading && ChannelsOf(pending) <= channels.Keys
      modifies this
      ensures RunFrom(old(State()), steps) == Some(State()) && done && pending == map[] && readErr.Some?
      ensures ReadsOf(steps) == []
    {
      steps := FailedIsARun(State(), error);
      FailPending(error);
      RunStep(old(State()), steps, CloseDone);
      done := true;
      reader := Finished;
      ReadsOfAppend(steps, [CloseDone]);
      ReadsOfOne(CloseDone);
      steps := steps + [CloseDone];
    }

    method RouteOne(response: Response) returns (ghost steps: seq<Step>)
      requires reader == Reading && forall id :: id in pending ==> pending[id] in channels
      modifies this
      ensures RunFrom(old(State()), steps) == Some(State()) && reader == Reading && done == old(done)
      ensures ReadsOf(steps) == [response]
    {
      RoutedIsARun(State(), response);
      ReadsOfRoute(response);
      steps := if Routed(State(), response) == State() then [ReadResponse(response)]
        else [ReadResponse(response), Send, CloseSent];
      RouteResponse(response);
    }

    /** Reads until the transport fails; then fails what is pending and closes done. */
    method ReadLoop(inbound: seq<Inbound>) returns (ghost steps: seq<Step>)
      requires Invariant(State()) && reader == Reading
      modifies this
      ensures RunFrom(old(State()), steps) == Some(State()) && Invariant(State())
      ensures ReadsOf(steps) == AnswersIn(inbound)
      ensures done <==> exists k :: 0 <= k < |inbound| && Fails(inbound[k])
      ensures done ==> pending == map[] && readErr.Some?
    {
      steps := [];
      assert inbound[0..] == inbound;
      for i := 0 to |inbound|
        invariant RunFrom(old(State()), steps) == Some(State()) && reader == Reading && !done
        invariant ReadsOf(steps) + AnswersIn(inbound[i..]) == AnswersIn(inbound)
        invariant forall k :: 0 <= k < i ==> !Fails(inbound[k])
      {
        RunKeepsPendingChannels(old(State()), steps);
        AnswersStep(inbound, i, ReadsOf(steps));
        ghost var more := [];
        if Fails(inbound[i]) {
          more := EndLoop("read failed");
          RunAppend(old(State()), steps, more);
          ReadsOfAppend(steps, more);
          steps := steps + more;
          RunKeepsInvariant(old(State()), steps);
          return;
        }
        if inbound[i].Answer? {
          more := RouteOne(inbound[i].response);
        }
        RunAppend(old(State()), steps, more);
        ReadsOfAppend(steps, more);
        steps := steps + more;
      }
      RunKeepsInvariant(old(State()), steps);
    }
  }

  lemma ReadsOfRoute(response: Response)
    ensures ReadsOf([ReadResponse(response)]) == [response]
    ensures ReadsOf([ReadResponse(response), Send, CloseSent]) == [response]
  {
    ReadsOfOne(ReadResponse(response));
    ReadsOfOne(Send);
    ReadsOfOne(CloseSent);
    ReadsOfAppend([ReadResponse(response)], [Send]);
    ReadsOfAppend([ReadResponse(response)] + [Send], [CloseSent]);
    assert [ReadResponse(response)] + [Send] + [CloseSent] == [ReadResponse(response), Send, CloseSent];
  }

  lemma AnswersStep(inbound: seq<Inbound>, i: nat, read: seq<Response>)
    requires i < |inbound|
    ensures read + AnswersIn(inbound[i..]) ==
            if Fails(inbound[i]) then read
            else if inbound[i].Answer? then read + [inbound[i].response] + AnswersIn(inbound[i + 1..])
            else read + AnswersIn(inbound[i + 1..])
  {
    assert inbound[i..][0] == inbound[i] && inbound[i..][1..] == inbound[i + 1..];
  }

  lemma RunKeepsPendingChannels(s: ClientState, steps: seq<Step>)
    requires Invariant(s) && RunFrom(s, steps).Some?
    ensures var t := RunFrom(s, steps).value;
            ChannelsOf(t.pending) <= t.channels.Keys && forall id :: id in t.pending ==> t.pending[id] in t.channels
  {
    RunKeepsInvariant(s, steps);
  }

  lemma {:induction false} RunAppend(s: ClientState, a: seq<Step>, b: seq<Step>)
    requires RunFrom(s, a).Some?
    ensures RunFrom(s, a + b) == RunFrom(RunFrom(s, a).value, b)
  {
    if b == [] {
      assert a + b == a;
    } else {
      RunAppend(s, a, b[..|b| - 1]);
      assert (a + b)[..|a + b| - 1] == a + b[..|b| - 1];
    }
  }
}
