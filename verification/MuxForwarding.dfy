/**
 What the server is told (pkg/lsp/daemon_unix.go:325-391): in every run each
 message comes from one message of one client, with nothing changed but the id
 of a request; or it turns down a request of the server; or it is the daemon's
 shutdown. What a client says is told in order, and none of it is left out. And
 what the clients are told (pkg/lsp/daemon_unix.go:617-703) is what the server said.
 */
module MuxForwarding {
  import opened Wrappers
  import opened Sequences
  import opened JsonRpc
  import opened Mux
  import opened MuxRouting
  import opened MuxHandshake

  /** Where a message to the server comes from: the index-th message of a client, or of the server, or the daemon. */
  datatype Origin = OfClient(client: nat, index: int) | OfServer(index: int) | OfDaemon

  /** A request of a client that gets another id on its way; one named `initialized` does not. */
  predicate GetsDaemonID(m: Message) {
    m.Message? && m.id.Some? && m.methodName != "" && m.methodName != METHOD_INITIALIZED
  }

  /** The message is the one of this origin: what a client said, with another id if it is a request. */
  predicate Tells(routes: Routes, tr: Traffic, m: Message, origin: Origin) {
    match origin
    case OfClient(c, k) => 0 <= k < |Sent(tr, c)| && Passes(routes.issued, m, c, k, Sent(tr, c)[k])
    case OfServer(k) => 0 <= k < |tr.fromServer| && Rejects(m, tr.fromServer[k])
    case OfDaemon => m == Message(Some(Number(2_000_000_000)), "shutdown", "")
  }

  predicate Passes(issued: map<int, Issue>, m: Message, c: nat, k: int, said: Message) {
    if GetsDaemonID(said) then
      && m.Message? && m.methodName == said.methodName && m.body == said.body
      && m.id.Some? && m.id.value.Number? && m.id.value.n in issued && issued[m.id.value.n] == Issue(c, k, said)
    else m == said
  }

  /** An error response under the id of a request of the server. */
  predicate Rejects(m: Message, asked: Message) {
    && asked.Message? && asked.id.Some? && asked.methodName != ""
    && m.Message? && m.id == asked.id && m.methodName == ""
  }

  /** Where what a step tells the server comes from. */
  function NewOrigin(s: MuxState, step: Step): seq<Origin> {
    match step
    case Handler(c, WriteServer(ok)) => if ok then [OfClient(c, |Sent(s.traffic, c)| - 1)] else []
    case Reader(Reject(ok)) => if ok then [OfServer(|s.traffic.fromServer| - 1)] else []
    case Shutdown => [OfDaemon]
    case _ => []
  }

  function Origins(steps: seq<Step>): seq<Origin>
    requires RunFrom(INITIAL, steps).Some?
  {
    if steps == [] then []
    else
      var init := steps[..|steps| - 1];
      Origins(init) + NewOrigin(RunFrom(INITIAL, init).value, steps[|steps| - 1])
  }

  /** The handler has the last message of its client in hand. */
  predicate Carries(h: HandlerState) {
    h.Remapping? || h.StoringInitID? || h.Writing?
  }

  predicate HasInHand(t: Table, c: nat) {
    c in t.handlers && Carries(t.handlers[c])
  }

  /** What is in hand is what the client said last. */
  predicate CarriedOk(s: MuxState, c: nat) {
    c in s.table.handlers ==>
      match s.table.handlers[c]
      case Remapping(m) => IsLast(s.traffic, c, m) && GetsDaemonID(m)
      case StoringInitID(_, m) => Tells(s.routes, s.traffic, m, OfClient(c, |Sent(s.traffic, c)| - 1))
      case Writing(m) => Tells(s.routes, s.traffic, m, OfClient(c, |Sent(s.traffic, c)| - 1))
      case _ => true
  }

  /** The read loop works on the last message of the server. */
  predicate HeardLast(reader: ReaderState, tr: Traffic) {
    match reader
    case Received(m) => tr.fromServer != [] && tr.fromServer[|tr.fromServer| - 1] == m
    case Caching(m) => tr.fromServer != [] && tr.fromServer[|tr.fromServer| - 1] == m
    case Forwarding(m) => tr.fromServer != [] && tr.fromServer[|tr.fromServer| - 1] == m
    case Rejecting(m) => tr.fromServer != [] && tr.fromServer[|tr.fromServer| - 1] == m
    case _ => true
  }

  lemma StepKeepsHeard(s: MuxState, step: Step)
    requires HeardLast(s.reader, s.traffic) && Enabled(s, step)
    ensures HeardLast(Apply(s, step).reader, Apply(s, step).traffic)
    ensures s.traffic.fromServer <= Apply(s, step).traffic.fromServer
  {
  }

  /** What was said stays said, and an id stays with its request. */
  lemma TellsStays(s: MuxState, step: Step, m: Message, origin: Origin)
    requires IssuedOk(s.routes.issued, s.routes.nextReqID, s.traffic) && HeardLast(s.reader, s.traffic)
    requires Enabled(s, step) && Tells(s.routes, s.traffic, m, origin)
    ensures Tells(Apply(s, step).routes, Apply(s, step).traffic, m, origin)
  {
    StepIssues(s, step);
    StepKeepsHeard(s, step);
  }

  lemma OwnStepCarries(s: MuxState, c: nat, does: HandlerStep)
    requires Enabled(s, Handler(c, does)) && CarriedOk(s, c)
    ensures CarriedOk(Apply(s, Handler(c, does)), c)
  {
    HandlerIssues(s, c, does);
  }

  lemma StepKeepsCarried(s: MuxState, step: Step, c: nat)
    requires IssuedOk(s.routes.issued, s.routes.nextReqID, s.traffic) && HeardLast(s.reader, s.traffic)
    requires Enabled(s, step) && CarriedOk(s, c)
    ensures CarriedOk(Apply(s, step), c)
  {
    if step.Handler? && step.client == c {
      OwnStepCarries(s, c, step.does);
    } else if c in Apply(s, step).table.handlers {
      OthersKeepHandler(s, step, c);
      StepIssues(s, step);
    }
  }

  /** A step tells the server what its handler has in hand, or what the read loop turns down. */
  lemma StepTells(s: MuxState, step: Step) returns (told: seq<Message>)
    requires Enabled(s, step) && HeardLast(s.reader, s.traffic)
    requires step.Handler? ==> CarriedOk(s, step.client)
    ensures Apply(s, step).traffic.toServer == s.traffic.toServer + told && |told| == |NewOrigin(s, step)| <= 1
    ensures told != [] ==> Tells(s.routes, s.traffic, told[0], NewOrigin(s, step)[0])
  {
    match step
    case Handler(c, does) => told := HandlerTells(s, c, does);
    case Reader(loop) => told := ReaderTells(s, loop);
    case Shutdown => told := [SHUTDOWN_REQUEST];
    case Accept(_) => told := [];
  }

  lemma HandlerTells(s: MuxState, c: nat, does: HandlerStep) returns (told: seq<Message>)
    requires Enabled(s, Handler(c, does)) && CarriedOk(s, c)
    ensures Apply(s, Handler(c, does)).traffic.toServer == s.traffic.toServer + told
    ensures |told| == |NewOrigin(s, Handler(c, does))| <= 1
    ensures told != [] ==> Tells(s.routes, s.traffic, told[0], NewOrigin(s, Handler(c, does))[0])
  {
    told := if does == WriteServer(true) then [s.table.handlers[c].message] else [];
  }

  lemma ReaderTells(s: MuxState, loop: ReaderStep) returns (told: seq<Message>)
    requires CanRead(s, loop) && HeardLast(s.reader, s.traffic)
    ensures ReadOn(s, loop).traffic.toServer == s.traffic.toServer + told
    ensures |told| == |NewOrigin(s, Reader(loop))| <= 1
    ensures told != [] ==> Tells(s.routes, s.traffic, told[0], NewOrigin(s, Reader(loop))[0])
  {
    told := if loop == Reject(true) then [Rejection(s.reader.message)] else [];
  }

  lemma {:induction false} RunCarries(steps: seq<Step>, s: MuxState)
    requires Reaches(steps, s)
    ensures HeardLast(s.reader, s.traffic) && forall c: nat :: CarriedOk(s, c)
  {
    if steps != [] {
      var t := RunFrom(INITIAL, steps[..|steps| - 1]).value;
      RunCarries(steps[..|steps| - 1], t);
      RunKeepsRouting(steps[..|steps| - 1], t);
      StepKeepsHeard(t, steps[|steps| - 1]);
      forall c: nat ensures CarriedOk(s, c) {
        StepKeepsCarried(t, steps[|steps| - 1], c);
      }
    }
  }

  /** Messages come from earlier than this handler's place, or the read loop's. */
  predicate Before(s: MuxState, origin: Origin) {
    match origin
    case OfClient(c, k) =>
      k < |Sent(s.traffic, c)| - if HasInHand(s.table, c) then 1 else 0
    case OfServer(k) =>
      k < |s.traffic.fromServer| - if HasHeard(s.reader) then 1 else 0
    case OfDaemon => s.stopping
  }

  predicate HasHeard(reader: ReaderState) {
    reader.Received? || reader.Caching? || reader.Forwarding? || reader.Rejecting?
  }

  /** The first of the two was said before the second, if the same side said both; the daemon speaks once. */
  predicate InOrder(a: Origin, b: Origin) {
    match a
    case OfClient(c, k) => b.OfClient? && b.client == c ==> k < b.index
    case OfServer(k) => b.OfServer? ==> k < b.index
    case OfDaemon => !b.OfDaemon?
  }

  lemma BeforeStays(s: MuxState, step: Step, origin: Origin)
    requires Enabled(s, step) && Before(s, origin)
    ensures Before(Apply(s, step), origin)
    ensures NewOrigin(s, step) != [] ==> InOrder(origin, NewOrigin(s, step)[0])
  {
    match origin
    case OfClient(c, k) =>
      StepIssues(s, step);
      if c in Apply(s, step).table.handlers && !(step.Handler? && step.client == c) {
        OthersKeepHandler(s, step, c);
      }
    case _ =>
  }

  lemma NewIsBefore(s: MuxState, step: Step)
    requires Enabled(s, step) && NewOrigin(s, step) != []
    ensures Before(Apply(s, step), NewOrigin(s, step)[0])
  {
    StepIssues(s, step);
  }

  /** The messages told, each with where it comes from, in the order they were said. */
  ghost predicate ToldOk(s: MuxState, origins: seq<Origin>) {
    && |s.traffic.toServer| == |origins|
    && (forall i :: 0 <= i < |origins| ==> Tells(s.routes, s.traffic, s.traffic.toServer[i], origins[i]))
    && (forall i, j :: 0 <= i < j < |origins| ==> InOrder(origins[i], origins[j]))
  }

  ghost predicate AllBefore(s: MuxState, origins: seq<Origin>) {
    forall i :: 0 <= i < |origins| ==> Before(s, origins[i])
  }

  lemma StepKeepsTold(s: MuxState, step: Step, origins: seq<Origin>)
    requires IssuedOk(s.routes.issued, s.routes.nextReqID, s.traffic) && HeardLast(s.reader, s.traffic)
    requires Enabled(s, step) && (step.Handler? ==> CarriedOk(s, step.client))
    requires ToldOk(s, origins) && AllBefore(s, origins)
    ensures ToldOk(Apply(s, step), origins + NewOrigin(s, step))
  {
    var t := Apply(s, step);
    var more := StepTells(s, step);
    var origins' := origins + NewOrigin(s, step);
    forall i | 0 <= i < |origins'| ensures Tells(t.routes, t.traffic, t.traffic.toServer[i], origins'[i]) {
      if i < |origins| {
        TellsStays(s, step, s.traffic.toServer[i], origins[i]);
      } else {
        TellsStays(s, step, more[0], NewOrigin(s, step)[0]);
      }
    }
    forall i, j | 0 <= i < j < |origins'| ensures InOrder(origins'[i], origins'[j]) {
      if j == |origins| {
        BeforeStays(s, step, origins[i]);
      }
    }
  }

  lemma StepKeepsBefore(s: MuxState, step: Step, origins: seq<Origin>)
    requires Enabled(s, step) && AllBefore(s, origins)
    ensures AllBefore(Apply(s, step), origins + NewOrigin(s, step))
  {
    var origins' := origins + NewOrigin(s, step);
    forall i | 0 <= i < |origins'| ensures Before(Apply(s, step), origins'[i]) {
      if i < |origins| {
        BeforeStays(s, step, origins[i]);
      } else {
        NewIsBefore(s, step);
      }
    }
  }

  lemma {:induction false} RunKeepsTold(steps: seq<Step>, s: MuxState)
    requires Reaches(steps, s)
    ensures ToldOk(s, Origins(steps)) && AllBefore(s, Origins(steps))
  {
    if steps != [] {
      var init, last := steps[..|steps| - 1], steps[|steps| - 1];
      var t := RunFrom(INITIAL, init).value;
      RunKeepsTold(init, t);
      RunCarries(init, t);
      RunKeepsRouting(init, t);
      StepKeepsTold(t, last, Origins(init));
      StepKeepsBefore(t, last, Origins(init));
    }
  }

  /**
   Every message to the server comes from one message of one client, in the
   same words and, unless it is a request, whole; a request carries the daemon id
   that was given to it. Else it turns down a request of the server under that
   request's id, or is the daemon's shutdown. What one client says is told in the
   order it was said, and nothing is told twice.
   */
  lemma ToldAsSaid(steps: seq<Step>, s: MuxState)
    requires Reaches(steps, s)
    ensures var told, origins := s.traffic.toServer, Origins(steps);
            && |told| == |origins|
            && (forall i :: 0 <= i < |told| ==> Tells(s.routes, s.traffic, told[i], origins[i]))
            && (forall i, j :: 0 <= i < j < |told| ==> InOrder(origins[i], origins[j]))
  {
    RunKeepsTold(steps, s);
  }

  // --- nothing is left out ---

  /** Which messages of a client were read under a phase that sends them to the server. */
  function Owed(steps: seq<Step>, c: nat): seq<int>
    requires RunFrom(INITIAL, steps).Some?
  {
    if steps == [] then []
    else
      var init, last := steps[..|steps| - 1], steps[|steps| - 1];
      Owed(init, c) + NewlyOwed(RunFrom(INITIAL, init).value, last, c)
  }

  function NewlyOwed(s: MuxState, step: Step, c: nat): seq<int> {
    if step.Handler? && step.client == c && step.does.Read? && GoesToServer(MethodOf(step.does.message), s.init.phase)
    then [|Sent(s.traffic, c)|]
    else []
  }

  /** Which messages of a client the server has been told. */
  function Told(origins: seq<Origin>, c: nat): seq<int> {
    if origins == [] then []
    else
      var last := origins[|origins| - 1];
      Told(origins[..|origins| - 1], c) + if last.OfClient? && last.client == c then [last.index] else []
  }

  /** A write for this client failed. */
  predicate WriteFailed(steps: seq<Step>, c: nat) {
    Handler(c, WriteServer(false)) in steps
  }

  /** The handler reads no more. */
  predicate Leaves(h: HandlerState) {
    h.Unlisting? || h.Closing? || h.Purging? || h.Gone?
  }

  lemma ToldOneMore(origins: seq<Origin>, more: seq<Origin>, c: nat)
    requires |more| <= 1
    ensures Told(origins + more, c) == Told(origins, c) + Told(more, c)
  {
    if more == [] {
      assert origins + more == origins;
    } else {
      assert (origins + more)[..|origins|] == origins;
      assert more[..0] == [];
    }
  }

  predicate HasLeft(t: Table, c: nat) {
    c in t.handlers && Leaves(t.handlers[c])
  }

  /** A message is in hand from when it is read until it is written. */
  lemma OwnStepInHand(s: MuxState, c: nat, does: HandlerStep)
    requires Enabled(s, Handler(c, does))
    ensures var t := Apply(s, Handler(c, does));
            && (does.Read? ==> s.table.handlers[c] == Reading
                               && (HasInHand(t.table, c) <==> GoesToServer(MethodOf(does.message), s.init.phase)))
            && (does.WriteServer? ==> HasInHand(s.table, c) && !HasInHand(t.table, c))
            && (does == WriteServer(false) ==> HasLeft(t.table, c))
            && (!does.Read? && !does.WriteServer? ==> (HasInHand(t.table, c) <==> HasInHand(s.table, c)))
            && (HasLeft(s.table, c) ==> HasLeft(t.table, c))
  {
    assert |METHOD_INITIALIZE| != |METHOD_INITIALIZED|;
  }

  lemma OthersStepInHand(s: MuxState, step: Step, c: nat)
    requires TableOk(s.table) && Enabled(s, step) && !(step.Handler? && step.client == c)
    ensures HasInHand(Apply(s, step).table, c) <==> HasInHand(s.table, c)
    ensures HasLeft(s.table, c) ==> HasLeft(Apply(s, step).table, c)
  {
    StepKeepsListed(s, step, c);
    if c in Apply(s, step).table.handlers {
      OthersKeepHandler(s, step, c);
    }
  }

  lemma StepKeepsListed(s: MuxState, step: Step, c: nat)
    requires Enabled(s, step)
    ensures c in s.table.handlers ==> c in Apply(s, step).table.handlers
  {
  }

  lemma ToldOfStep(s: MuxState, step: Step, c: nat)
    ensures Told(NewOrigin(s, step), c) ==
              if step == Handler(c, WriteServer(true)) then [|Sent(s.traffic, c)| - 1] else []
  {
    if NewOrigin(s, step) != [] {
      assert NewOrigin(s, step)[..0] == [];
    }
  }

  /** The last message, if the handler has it in hand or lost it. */
  function Last(tr: Traffic, c: nat, unsaid: bool): seq<int> {
    if unsaid then [|Sent(tr, c)| - 1] else []
  }

  /** One step keeps the books: what it adds to what is owed, it takes in hand, and what it takes from there is told. */
  lemma StepOwes(s: MuxState, step: Step, c: nat, failed: bool)
    requires TableOk(s.table) && Enabled(s, step) && (failed ==> HasLeft(s.table, c))
    ensures var t := Apply(s, step);
            var failed' := failed || step == Handler(c, WriteServer(false));
            && Last(s.traffic, c, HasInHand(s.table, c) || failed) + NewlyOwed(s, step, c)
               == Told(NewOrigin(s, step), c) + Last(t.traffic, c, HasInHand(t.table, c) || failed')
            && (failed' ==> HasLeft(t.table, c))
  {
    StepIssues(s, step);
    ToldOfStep(s, step, c);
    if step.Handler? && step.client == c {
      OwnStepInHand(s, c, step.does);
    } else {
      OthersStepInHand(s, step, c);
    }
  }

  lemma FailedOneMore(steps: seq<Step>, c: nat)
    requires steps != []
    ensures WriteFailed(steps, c) <==>
              WriteFailed(steps[..|steps| - 1], c) || steps[|steps| - 1] == Handler(c, WriteServer(false))
  {
  }

  lemma Rebracket(owed: seq<int>, told: seq<int>, held: seq<int>, newlyOwed: seq<int>, newlyTold: seq<int>,
                  held': seq<int>)
    requires owed == told + held && held + newlyOwed == newlyTold + held'
    ensures owed + newlyOwed == (told + newlyTold) + held'
  {
    ConcatAssociates(told, held, newlyOwed);
    ConcatAssociates(told, newlyTold, held');
  }

  /**
   What a client says and the phase sends to the server is told, all of it and in
   order, but for at most the last message, which its handler has in hand or
   lost in a failed write, after which it reads no more.
   */
  lemma {:induction false} AllIsTold(steps: seq<Step>, s: MuxState, c: nat)
    requires Reaches(steps, s)
    ensures Owed(steps, c) ==
              Told(Origins(steps), c) + Last(s.traffic, c, HasInHand(s.table, c) || WriteFailed(steps, c))
    ensures WriteFailed(steps, c) ==> HasLeft(s.table, c)
  {
    if steps != [] {
      var init, last := steps[..|steps| - 1], steps[|steps| - 1];
      var t := RunFrom(INITIAL, init).value;
      AllIsTold(init, t, c);
      RunKeepsRouting(init, t);
      ToldOneMore(Origins(init), NewOrigin(t, last), c);
      FailedOneMore(steps, c);
      StepOwes(t, last, c, WriteFailed(init, c));
      Rebracket(Owed(init, c), Told(Origins(init), c),
                Last(t.traffic, c, HasInHand(t.table, c) || WriteFailed(init, c)), NewlyOwed(t, last, c),
                Told(NewOrigin(t, last), c), Last(s.traffic, c, HasInHand(s.table, c) || WriteFailed(steps, c)));
    }
  }

  // --- what the clients are told ---

  /**
   The delivery is this message of the server: a request or a notification as it
   came, a response with the id of the request that it answers.
   */
  predicate Brings(delivery: Delivery, said: Message) {
    match delivery
    case FromCache(_) => false
    case Routed(d, m) =>
      && said.Message? && said.id.Some? && said.methodName == "" && ParseResponseID(said.id.value) == Some(d)
      && m.Message? && m.methodName == "" && m.body == said.body
    case Broadcast(m) => m == said && said.Message? && said.id.None?
    case Asked(m) => m == said && said.Message? && said.id.Some? && said.methodName != ""
  }

  /** The index of the server's message that a client is told in this step; -1 for a reply from the cache. */
  function NewSource(s: MuxState, step: Step, c: nat): seq<int>
    requires Enabled(s, step)
  {
    match step
    case Handler(_, _) => if NewDeliveries(s, step, c) == [] then [] else [-1]
    case Reader(WriteClient(c', ok)) =>
      if c == c' && ok && c in s.table.open then [|s.traffic.fromServer| - 1] else []
    case _ => []
  }

  function Sources(steps: seq<Step>, c: nat): seq<int>
    requires RunFrom(INITIAL, steps).Some?
  {
    if steps == [] then []
    else
      var init := steps[..|steps| - 1];
      Sources(init, c) + NewSource(RunFrom(INITIAL, init).value, steps[|steps| - 1], c)
  }

  /** What the read loop delivers is the last message of the server. */
  predicate BringsLast(reader: ReaderState, tr: Traffic) {
    reader.Delivering? ==> tr.fromServer != [] && Brings(reader.delivery, tr.fromServer[|tr.fromServer| - 1])
  }

  /** A message of the server that this client may still be told, if it is the last one. */
  predicate Underway(reader: ReaderState, c: nat) {
    HasHeard(reader) || (reader.Delivering? && c in reader.targets)
  }

  predicate IsSource(tr: Traffic, delivery: Delivery, k: int) {
    if delivery.FromCache? then k == -1 else 0 <= k < |tr.fromServer| && Brings(delivery, tr.fromServer[k])
  }

  ghost predicate SourcesOk(s: MuxState, c: nat, sources: seq<int>) {
    && |sources| == |Inbox(s.traffic, c)|
    && (forall i :: 0 <= i < |sources| ==> IsSource(s.traffic, Inbox(s.traffic, c)[i], sources[i]))
    && (forall i, j :: 0 <= i < j < |sources| && sources[i] >= 0 && sources[j] >= 0 ==> sources[i] < sources[j])
  }

  ghost predicate SourcesPast(s: MuxState, c: nat, sources: seq<int>) {
    forall i :: 0 <= i < |sources| ==>
      sources[i] < |s.traffic.fromServer| - if Underway(s.reader, c) then 1 else 0
  }

  lemma StepKeepsBringing(s: MuxState, step: Step)
    requires HeardLast(s.reader, s.traffic) && BringsLast(s.reader, s.traffic) && Enabled(s, step)
    ensures BringsLast(Apply(s, step).reader, Apply(s, step).traffic)
  {
    match step
    case Reader(Forward(m, target)) => ForwardBrings(s, m, target);
    case _ =>
  }

  lemma ForwardBrings(s: MuxState, m: Message, target: Option<nat>)
    requires s.reader == Forwarding(m) && TargetOk(s.table, m, target)
    ensures var t := ForwardOn(s, m, target); t.reader.Delivering? ==> Brings(t.reader.delivery, m)
  {
  }

  lemma StepKeepsPast(s: MuxState, step: Step, c: nat)
    requires HeardLast(s.reader, s.traffic) && BringsLast(s.reader, s.traffic) && Enabled(s, step)
    ensures var t := Apply(s, step);
            var bound := |s.traffic.fromServer| - if Underway(s.reader, c) then 1 else 0;
            var bound' := |t.traffic.fromServer| - if Underway(t.reader, c) then 1 else 0;
            bound <= bound' && (NewSource(s, step, c) != [] ==> NewSource(s, step, c)[0] < bound')
              && (NewSource(s, step, c) != [] && NewSource(s, step, c)[0] >= 0 ==> bound <= NewSource(s, step, c)[0])
  {
  }

  lemma NewSourceIs(s: MuxState, step: Step, c: nat)
    requires BringsLast(s.reader, s.traffic) && Enabled(s, step)
    ensures |NewSource(s, step, c)| == |NewDeliveries(s, step, c)| <= 1
    ensures NewSource(s, step, c) != [] ==> IsSource(s.traffic, NewDeliveries(s, step, c)[0], NewSource(s, step, c)[0])
  {
  }

  lemma SourcesGrow(tr: Traffic, tr': Traffic, inbox: seq<Delivery>, more: seq<Delivery>, sources: seq<int>,
                    also: seq<int>)
    requires |inbox| == |sources| && |more| == |also| <= 1 && tr.fromServer <= tr'.fromServer
    requires forall i :: 0 <= i < |sources| ==> IsSource(tr, inbox[i], sources[i])
    requires also != [] ==> IsSource(tr, more[0], also[0])
    ensures forall i :: 0 <= i < |sources + also| ==> IsSource(tr', (inbox + more)[i], (sources + also)[i])
  {
  }

  lemma AscendFurther(sources: seq<int>, more: seq<int>, bound: int)
    requires forall i :: 0 <= i < |sources| ==> sources[i] < bound
    requires forall i, j :: 0 <= i < j < |sources| && sources[i] >= 0 && sources[j] >= 0 ==> sources[i] < sources[j]
    requires |more| <= 1 && (more != [] && more[0] >= 0 ==> bound <= more[0])
    ensures var all := sources + more;
            forall i, j :: 0 <= i < j < |all| && all[i] >= 0 && all[j] >= 0 ==> all[i] < all[j]
  {
  }

  lemma StepKeepsSources(s: MuxState, step: Step, c: nat, sources: seq<int>)
    requires HeardLast(s.reader, s.traffic) && BringsLast(s.reader, s.traffic) && Enabled(s, step)
    requires SourcesOk(s, c, sources) && SourcesPast(s, c, sources)
    ensures SourcesOk(Apply(s, step), c, sources + NewSource(s, step, c))
    ensures SourcesPast(Apply(s, step), c, sources + NewSource(s, step, c))
  {
    StepDelivers(s, step, c);
    StepKeepsHeard(s, step);
    StepKeepsPast(s, step, c);
    NewSourceIs(s, step, c);
    SourcesGrow(s.traffic, Apply(s, step).traffic, Inbox(s.traffic, c), NewDeliveries(s, step, c), sources,
                NewSource(s, step, c));
    AscendFurther(sources, NewSource(s, step, c),
                  |s.traffic.fromServer| - if Underway(s.reader, c) then 1 else 0);
  }

  lemma {:induction false} RunKeepsSources(steps: seq<Step>, s: MuxState, c: nat)
    requires Reaches(steps, s)
    ensures HeardLast(s.reader, s.traffic) && BringsLast(s.reader, s.traffic)
    ensures SourcesOk(s, c, Sources(steps, c)) && SourcesPast(s, c, Sources(steps, c))
  {
    if steps != [] {
      var init, last := steps[..|steps| - 1], steps[|steps| - 1];
      var t := RunFrom(INITIAL, init).value;
      RunKeepsSources(init, t, c);
      StepKeepsHeard(t, last);
      StepKeepsBringing(t, last);
      StepKeepsSources(t, last, c, Sources(init, c));
    }
  }

  /**
   Whatever a client is told, but for a reply from the cache, is one message of
   the server: requests and notifications as they came, responses with their body.
   The server's messages are told in its order, and none of them twice.
   */
  lemma HeardAsSaid(steps: seq<Step>, s: MuxState, c: nat)
    requires Reaches(steps, s)
    ensures var inbox, sources := Inbox(s.traffic, c), Sources(steps, c);
            && |inbox| == |sources|
            && (forall i :: 0 <= i < |inbox| ==>
                  if inbox[i].FromCache? then sources[i] == -1
                  else 0 <= sources[i] < |s.traffic.fromServer| && Brings(inbox[i], s.traffic.fromServer[sources[i]]))
            && (forall i, j :: 0 <= i < j < |inbox| && !inbox[i].FromCache? && !inbox[j].FromCache? ==>
                  sources[i] < sources[j])
  {
    RunKeepsSources(steps, s, c);
    var inbox, sources := Inbox(s.traffic, c), Sources(steps, c);
    assert forall i :: 0 <= i < |inbox| ==> IsSource(s.traffic, inbox[i], sources[i]);
  }

  // --- a request that keeps its id ---

  const ODD_REQUEST: Message := Message(Some(Number(1)), METHOD_INITIALIZED, "")
  const HOVER: Message := Message(Some(Number(5)), "textDocument/hover", "where")

  lemma OddRequestIsTold() returns (steps: seq<Step>, s: MuxState)
    ensures Reaches(steps, s) && s.table.handlers == map[1 := Reading] && s.routes.nextReqID == 0 && s.init.phase == 2
    ensures s.traffic.toServer == [ODD_REQUEST]
  {
    var f := [Accept(1), Handler(1, Read(ODD_REQUEST)), Handler(1, WriteServer(true)), Handler(1, StorePhase)];
    RunStep(INITIAL, [], f[0]);
    RunStep(INITIAL, [] + [f[0]], f[1]);
    RunStep(INITIAL, [] + [f[0]] + [f[1]], f[2]);
    RunStep(INITIAL, [] + [f[0]] + [f[1]] + [f[2]], f[3]);
    steps := [] + [f[0]] + [f[1]] + [f[2]] + [f[3]];
    s := RunFrom(INITIAL, steps).value;
  }

  /** A request named `initialized` keeps the id its client gave it, so the server can be told one id twice. */
  lemma InitializedKeepsItsID() returns (steps: seq<Step>, s: MuxState)
    ensures Reaches(steps, s)
    ensures s.traffic.toServer == [ODD_REQUEST, HOVER.(id := Some(Number(1)))] && ODD_REQUEST.id == Some(Number(1))
  {
    var f := [Handler(1, Read(HOVER)), Handler(1, Register(1)), Handler(1, WriteServer(true))];
    var a, t := OddRequestIsTold();
    RunStep(INITIAL, a, f[0]);
    RunStep(INITIAL, a + [f[0]], f[1]);
    RunStep(INITIAL, a + [f[0]] + [f[1]], f[2]);
    steps := a + [f[0]] + [f[1]] + [f[2]];
    s := RunFrom(INITIAL, steps).value;
  }
}
