/**
 The handshake (pkg/lsp/daemon_unix.go:337-374, 528-593) in every run: what the
 cache and the phase do whatever the clients do, and where that is less than one
 would want, exactly when.
 */
module MuxHandshake {
  import opened Wrappers
  import opened JsonRpc
  import opened Mux
  import opened MuxRouting

  /** The cache is filled under phase 0, and the read loop is then on its way to phase 1. */
  predicate CacheOk(s: MuxState) {
    && s.init.phase <= 2
    && (s.reader.Caching? ==> s.init.response == Some(s.reader.message))
    && (s.init.response.Some? ==> s.init.phase >= 1 || s.reader.Caching?)
    && (s.init.response.Some? ==> IsResponse(s.init.response.value))
  }

  lemma StepKeepsCache(s: MuxState, step: Step)
    requires CacheOk(s) && Enabled(s, step)
    ensures CacheOk(Apply(s, step))
    ensures s.init.response.Some? ==> Apply(s, step).init.response == s.init.response
  {
  }

  lemma {:induction false} RunKeepsCache(s: MuxState, steps: seq<Step>, t: MuxState)
    requires CacheOk(s) && RunFrom(s, steps) == Some(t)
    ensures CacheOk(t) && (s.init.response.Some? ==> t.init.response == s.init.response)
  {
    if steps != [] {
      var u := RunFrom(s, steps[..|steps| - 1]).value;
      RunKeepsCache(s, steps[..|steps| - 1], u);
      StepKeepsCache(u, steps[|steps| - 1]);
    }
  }

  /** The cached response is written at most once: once there is one, it is there for good. */
  lemma CachedOnce(before: seq<Step>, s: MuxState, more: seq<Step>, t: MuxState)
    requires Reaches(before, s) && RunFrom(s, more) == Some(t) && s.init.response.Some?
    ensures t.init.response == s.init.response
  {
    RunKeepsCache(INITIAL, before, s);
    RunKeepsCache(s, more, t);
  }

  // --- does the phase ever fall? ---

  predicate StoresPhase(step: Step) {
    step.Handler? && step.does.StorePhase?
  }

  /** Somewhere in the run the phase went down. */
  predicate PhaseFell(steps: seq<Step>)
    requires RunFrom(INITIAL, steps).Some?
  {
    steps != [] &&
    var init := steps[..|steps| - 1];
    PhaseFell(init) || RunFrom(INITIAL, steps).value.init.phase < RunFrom(INITIAL, init).value.init.phase
  }

  /**
   Somewhere in the run a handler stored phase 2 while the read loop was between
   the cache and its store of phase 1.
   */
  predicate StoredWhileCaching(steps: seq<Step>)
    requires RunFrom(INITIAL, steps).Some?
  {
    steps != [] &&
    var init := steps[..|steps| - 1];
    StoredWhileCaching(init) || (StoresPhase(steps[|steps| - 1]) && RunFrom(INITIAL, init).value.reader.Caching?)
  }

  lemma {:induction false} PhaseHistory(steps: seq<Step>, s: MuxState)
    requires Reaches(steps, s)
    ensures CacheOk(s)
    ensures StoredWhileCaching(steps) ==> PhaseFell(steps) || (s.reader.Caching? && s.init.phase == 2)
    ensures !StoredWhileCaching(steps) ==> !PhaseFell(steps) && (s.reader.Caching? ==> s.init.phase == 0)
  {
    if steps != [] {
      var init, last := steps[..|steps| - 1], steps[|steps| - 1];
      var t := RunFrom(INITIAL, init).value;
      PhaseHistory(init, t);
      StepKeepsCache(t, last);
      PhaseStep(t, last);
    }
  }

  lemma PhaseStep(s: MuxState, step: Step)
    requires CacheOk(s) && Enabled(s, step)
    ensures var t := Apply(s, step);
            && (t.init.phase < s.init.phase <==> step == Reader(StoreOne) && s.init.phase == 2)
            && (StoresPhase(step) ==> t.init.phase == 2 && t.reader == s.reader)
            && (t.reader.Caching? && !s.reader.Caching? ==> s.init.phase == t.init.phase == 0)
            && (t.reader.Caching? && s.reader.Caching? && !StoresPhase(step) ==> t.init.phase == s.init.phase)
            && (s.reader.Caching? && !t.reader.Caching? ==> step == Reader(StoreOne))
  {
  }

  /**
   The phase never falls in a run exactly when no handler stores phase 2 while
   the response is being cached. (The run is taken to where the read loop has
   left that section.)
   */
  lemma PhaseNeverFallsIff(steps: seq<Step>, s: MuxState)
    requires Reaches(steps, s) && !s.reader.Caching?
    ensures !PhaseFell(steps) <==> !StoredWhileCaching(steps)
  {
    PhaseHistory(steps, s);
  }

  const INITIALIZE: Message := Message(Some(Number(1)), METHOD_INITIALIZE, "capabilities")
  const INITIALIZED: Message := Message(None, METHOD_INITIALIZED, "")
  const CAPABILITIES: Message := Message(Some(Number(1)), "", "server capabilities")

  /** A first client on its way through its handshake, up to where its response is being cached. */
  const FIRST_CLIENT: seq<Step> :=
    [Accept(1), Handler(1, Read(INITIALIZE)), Handler(1, Register(1)), Handler(1, StoreInitID),
     Handler(1, WriteServer(true)),
     Reader(ServerSends(CAPABILITIES)), Reader(CheckCache)]

  lemma FirstClient() returns (s: MuxState)
    ensures Reaches(FIRST_CLIENT, s) && s.reader == Caching(CAPABILITIES)
    ensures s.init == Handshake(0, Some(CAPABILITIES), Some(1))
    ensures s.table == Table({1}, 1, {1}, map[1 := Reading]) && !s.stopping
    ensures s.traffic.toServer == [INITIALIZE]
  {
    var f := FIRST_CLIENT;
    s := INITIAL;
    RunStep(INITIAL, [], f[0]);
    RunStep(INITIAL, [] + [f[0]], f[1]);
    RunStep(INITIAL, [] + [f[0]] + [f[1]], f[2]);
    RunStep(INITIAL, [] + [f[0]] + [f[1]] + [f[2]], f[3]);
    RunStep(INITIAL, [] + [f[0]] + [f[1]] + [f[2]] + [f[3]], f[4]);
    RunStep(INITIAL, [] + [f[0]] + [f[1]] + [f[2]] + [f[3]] + [f[4]], f[5]);
    RunStep(INITIAL, [] + [f[0]] + [f[1]] + [f[2]] + [f[3]] + [f[4]] + [f[5]], f[6]);
    assert [] + [f[0]] + [f[1]] + [f[2]] + [f[3]] + [f[4]] + [f[5]] + [f[6]] == f;
    s := RunFrom(INITIAL, f).value;
  }

  /** A client that sends `initialized` without waiting for its answer makes the phase go 0, 2, 1. */
  lemma PhaseCanFall() returns (steps: seq<Step>, s: MuxState)
    ensures Reaches(steps, s) && PhaseFell(steps) && s.init.phase == 1
  {
    var t := FirstClient();
    var f := FIRST_CLIENT;
    var race := [Handler(1, Read(INITIALIZED)), Handler(1, WriteServer(true)), Handler(1, StorePhase),
                 Reader(StoreOne)];
    RunStep(INITIAL, f, race[0]);
    RunStep(INITIAL, f + [race[0]], race[1]);
    RunStep(INITIAL, f + [race[0]] + [race[1]], race[2]);
    var stored := f + [race[0]] + [race[1]] + [race[2]];
    RunStep(INITIAL, stored, race[3]);
    steps := stored + [race[3]];
    s := RunFrom(INITIAL, steps).value;
    assert steps[..|steps| - 1] == stored;
    assert RunFrom(INITIAL, stored).value.init.phase == 2;
  }

  // --- the wedge: a phase without a response ---

  /** Initialize requests are to be answered from the cache, and the cache is empty. */
  predicate Wedged(s: MuxState) {
    s.init.phase >= 1 && s.init.response.None?
  }

  /** Somewhere in the run a handler stored phase 2 before any response was cached. */
  predicate StoredUncached(steps: seq<Step>)
    requires RunFrom(INITIAL, steps).Some?
  {
    steps != [] &&
    var init := steps[..|steps| - 1];
    StoredUncached(init) || (StoresPhase(steps[|steps| - 1]) && RunFrom(INITIAL, init).value.init.response.None?)
  }

  lemma StepAndWedge(s: MuxState, step: Step)
    requires CacheOk(s) && Enabled(s, step)
    ensures Wedged(Apply(s, step)) <==> Wedged(s) || (StoresPhase(step) && s.init.response.None?)
  {
  }

  /** The daemon is wedged exactly when some client's `initialized` was stored before a response was cached. */
  lemma {:induction false} WedgedIff(steps: seq<Step>, s: MuxState)
    requires Reaches(steps, s)
    ensures Wedged(s) <==> StoredUncached(steps)
  {
    if steps != [] {
      var init, last := steps[..|steps| - 1], steps[|steps| - 1];
      var t := RunFrom(INITIAL, init).value;
      WedgedIff(init, t);
      RunKeepsCache(INITIAL, init, t);
      StepAndWedge(t, last);
    }
  }

  /**
   A wedged daemon stays wedged, whatever happens, and every client that then
   asks to initialize is made to leave without an answer.
   */
  lemma {:induction false} WedgeIsForever(before: seq<Step>, s: MuxState, more: seq<Step>, t: MuxState)
    requires Reaches(before, s) && Wedged(s) && RunFrom(s, more) == Some(t)
    ensures Wedged(t)
    ensures forall c, m :: MethodOf(m) == METHOD_INITIALIZE && Enabled(t, Handler(c, Read(m))) ==>
              Apply(t, Handler(c, Read(m))).table.handlers[c] == Replying(m)
    ensures forall c, ok :: Enabled(t, Handler(c, Reply(ok))) ==>
              var u := Apply(t, Handler(c, Reply(ok))); u.table.handlers[c] == Unlisting && u.traffic == t.traffic
  {
    if more != [] {
      var init, last := more[..|more| - 1], more[|more| - 1];
      var u := RunFrom(s, init).value;
      WedgeIsForever(before, s, init, u);
      RunKeepsCache(INITIAL, before, s);
      RunKeepsCache(s, init, u);
      StepAndWedge(u, last);
    }
  }

  lemma WedgeHappens() returns (steps: seq<Step>, s: MuxState)
    ensures Reaches(steps, s) && Wedged(s)
  {
    var f := [Accept(1), Handler(1, Read(INITIALIZED)), Handler(1, WriteServer(true)), Handler(1, StorePhase)];
    RunStep(INITIAL, [], f[0]);
    RunStep(INITIAL, [] + [f[0]], f[1]);
    RunStep(INITIAL, [] + [f[0]] + [f[1]], f[2]);
    RunStep(INITIAL, [] + [f[0]] + [f[1]] + [f[2]], f[3]);
    steps := [] + [f[0]] + [f[1]] + [f[2]] + [f[3]];
    s := RunFrom(INITIAL, steps).value;
  }

  // --- what is answered from the cache ---

  predicate RepliesTo(s: MuxState, c: nat, k: int, delivered: Message) {
    && 0 <= k < |Sent(s.traffic, c)| && MethodOf(Sent(s.traffic, c)[k]) == METHOD_INITIALIZE
       && Sent(s.traffic, c)[k].id.Some?
    && s.init.response.Some? && IsResponse(s.init.response.value)
    && delivered == Message(Sent(s.traffic, c)[k].id, "", s.init.response.value.body)
  }

  ghost predicate CachedReply(s: MuxState, c: nat, delivery: Delivery) {
    delivery.FromCache? ==> exists k :: RepliesTo(s, c, k, delivery.message)
  }

  ghost predicate RepliesOk(s: MuxState) {
    && (forall c, i :: 0 <= i < |Inbox(s.traffic, c)| ==> CachedReply(s, c, Inbox(s.traffic, c)[i]))
    && (forall c :: c in s.table.handlers && s.table.handlers[c].Replying? ==>
          && MethodOf(s.table.handlers[c].request) == METHOD_INITIALIZE
          && s.table.handlers[c].request in Sent(s.traffic, c))
    && (s.reader.Delivering? ==> !s.reader.delivery.FromCache?)
  }

  lemma StepKeepsReplying(s: MuxState, step: Step, c: nat)
    requires RepliesOk(s) && Enabled(s, step)
    ensures var t := Apply(s, step);
            && (t.reader.Delivering? ==> !t.reader.delivery.FromCache?)
            && (c in t.table.handlers && t.table.handlers[c].Replying? ==>
                  MethodOf(t.table.handlers[c].request) == METHOD_INITIALIZE
                    && t.table.handlers[c].request in Sent(t.traffic, c))
  {
    StepKeepsDeliveries(s, step);
    if step.Handler? && step.client == c {
      OwnStepKeepsReplying(s, c, step.does);
    } else if c in Apply(s, step).table.handlers {
      OthersKeepHandler(s, step, c);
      StepIssues(s, step);
    }
  }

  lemma StepKeepsDeliveries(s: MuxState, step: Step)
    requires (s.reader.Delivering? ==> !s.reader.delivery.FromCache?) && Enabled(s, step)
    ensures var t := Apply(s, step); t.reader.Delivering? ==> !t.reader.delivery.FromCache?
  {
  }

  lemma OwnStepKeepsReplying(s: MuxState, c: nat, does: HandlerStep)
    requires RepliesOk(s) && Enabled(s, Handler(c, does))
    ensures var t := Apply(s, Handler(c, does));
            t.table.handlers[c].Replying? ==>
              MethodOf(t.table.handlers[c].request) == METHOD_INITIALIZE
                && t.table.handlers[c].request in Sent(t.traffic, c)
  {
    if does.Read? {
      var sent := Sent(s.traffic, c) + [does.message];
      assert sent[|sent| - 1] == does.message;
    }
  }

  /** A cached reply stays one: the cache does not change and what was sent stays sent. */
  lemma CachedReplyStays(s: MuxState, step: Step, c: nat, delivery: Delivery)
    requires CacheOk(s) && Enabled(s, step) && CachedReply(s, c, delivery)
    ensures CachedReply(Apply(s, step), c, delivery)
  {
    StepIssues(s, step);
    StepKeepsCache(s, step);
    if delivery.FromCache? {
      var k :| RepliesTo(s, c, k, delivery.message);
      assert RepliesTo(Apply(s, step), c, k, delivery.message);
    }
  }

  lemma StepKeepsReplies(s: MuxState, step: Step, c: nat)
    requires RepliesOk(s) && CacheOk(s) && Enabled(s, step)
    ensures var t := Apply(s, step);
            forall i :: 0 <= i < |Inbox(t.traffic, c)| ==> CachedReply(t, c, Inbox(t.traffic, c)[i])
  {
    var t := Apply(s, step);
    StepDelivers(s, step, c);
    var inbox := Inbox(s.traffic, c);
    forall i | 0 <= i < |Inbox(t.traffic, c)| ensures CachedReply(t, c, Inbox(t.traffic, c)[i]) {
      if i < |inbox| {
        CachedReplyStays(s, step, c, inbox[i]);
      } else if step.Handler? {
        var request := s.table.handlers[c].request;
        var k :| 0 <= k < |Sent(s.traffic, c)| && Sent(s.traffic, c)[k] == request;
        assert RepliesTo(s, c, k, RewriteID(s.init.response.value, request.id.value));
        CachedReplyStays(s, step, c, Inbox(t.traffic, c)[i]);
      }
    }
  }

  lemma {:induction false} RunKeepsReplies(steps: seq<Step>, s: MuxState)
    requires Reaches(steps, s)
    ensures RepliesOk(s)
  {
    if steps != [] {
      var t := RunFrom(INITIAL, steps[..|steps| - 1]).value;
      RunKeepsReplies(steps[..|steps| - 1], t);
      RunKeepsCache(INITIAL, steps[..|steps| - 1], t);
      forall c: nat ensures forall i :: 0 <= i < |Inbox(s.traffic, c)| ==> CachedReply(s, c, Inbox(s.traffic, c)[i]) {
        StepKeepsReplies(t, steps[|steps| - 1], c);
      }
      forall c: nat | c in s.table.handlers && s.table.handlers[c].Replying?
        ensures MethodOf(s.table.handlers[c].request) == METHOD_INITIALIZE
        ensures s.table.handlers[c].request in Sent(s.traffic, c)
      {
        StepKeepsReplying(t, steps[|steps| - 1], c);
      }
      StepKeepsReplying(t, steps[|steps| - 1], 0);
    }
  }

  /**
   Whatever a client is sent from the cache is the one cached response, under
   the id of an initialize request that this client sent.
   */
  lemma CachedRepliesCarryOwnID(steps: seq<Step>, s: MuxState, c: nat, i: nat)
    requires Reaches(steps, s) && i < |Inbox(s.traffic, c)| && Inbox(s.traffic, c)[i].FromCache?
    ensures exists k :: RepliesTo(s, c, k, Inbox(s.traffic, c)[i].message)
  {
    RunKeepsReplies(steps, s);
    assert CachedReply(s, c, Inbox(s.traffic, c)[i]);
  }

  // --- how often a message is forwarded ---

  function CountMethod(messages: seq<Message>, name: string): nat {
    if messages == [] then 0
    else CountMethod(messages[..|messages| - 1], name) + if MethodOf(messages[|messages| - 1]) == name then 1 else 0
  }

  lemma CountAppend(messages: seq<Message>, m: Message, name: string)
    ensures CountMethod(messages + [m], name) == CountMethod(messages, name) + if MethodOf(m) == name then 1 else 0
  {
    assert (messages + [m])[..|messages|] == messages;
  }

  /** The handler has a message of this method in hand, on its way to the server. */
  predicate Holds(h: HandlerState, name: string) {
    match h
    case Remapping(m) => MethodOf(m) == name
    case StoringInitID(_, m) => MethodOf(m) == name
    case Writing(m) => MethodOf(m) == name
    case _ => false
  }

  function InHand(t: Table, name: string): set<nat> {
    set c | c in t.handlers && Holds(t.handlers[c], name)
  }

  /** Under this phase, messages of this method go to the server. */
  predicate GoesToServer(name: string, phase: nat) {
    (name == METHOD_INITIALIZE ==> phase == 0) && (name == METHOD_INITIALIZED ==> phase < 2)
  }

  /** How many messages of this method were read that the phase sends to the server. */
  function TakenUp(steps: seq<Step>, name: string): nat
    requires RunFrom(INITIAL, steps).Some?
  {
    if steps == [] then 0
    else
      var init, last := steps[..|steps| - 1], steps[|steps| - 1];
      TakenUp(init, name) + if TakesUp(RunFrom(INITIAL, init).value, last, name) then 1 else 0
  }

  predicate TakesUp(s: MuxState, step: Step, name: string) {
    step.Handler? && step.does.Read? && MethodOf(step.does.message) == name && GoesToServer(name, s.init.phase)
  }

  /** How many of them were lost in failed writes. */
  function FailedWrites(steps: seq<Step>, name: string): nat
    requires RunFrom(INITIAL, steps).Some?
  {
    if steps == [] then 0
    else
      var init, last := steps[..|steps| - 1], steps[|steps| - 1];
      FailedWrites(init, name) + if IsFailedWrite(RunFrom(INITIAL, init).value, last, name) then 1 else 0
  }

  predicate IsFailedWrite(s: MuxState, step: Step, name: string) {
    step.Handler? && step.does == WriteServer(false) && step.client in InHand(s.table, name)
  }

  function Forwarded(s: MuxState, name: string): nat {
    CountMethod(s.traffic.toServer, name)
  }

  /** Neither of the two messages that the daemon sends by itself has this method. */
  predicate FromClients(name: string) {
    name != "" && name != METHOD_SHUTDOWN
  }

  predicate StopsHolding(step: Step, c: nat) {
    step.Handler? && step.client == c && step.does.WriteServer?
  }

  lemma StepInHand(s: MuxState, step: Step, name: string, c: nat)
    requires FromClients(name) && TableOk(s.table) && Enabled(s, step)
    ensures c in InHand(Apply(s, step).table, name) <==>
              (TakesUp(s, step, name) && step.client == c) || (c in InHand(s.table, name) && !StopsHolding(step, c))
    ensures TakesUp(s, step, name) && step.client == c ==> c !in InHand(s.table, name)
  {
    if step.Handler? && step.client == c {
      OwnStepHolds(s, c, step.does, name);
    } else if c in Apply(s, step).table.handlers {
      OthersKeepHandler(s, step, c);
    }
  }

  lemma OwnStepHolds(s: MuxState, c: nat, does: HandlerStep, name: string)
    requires FromClients(name) && Enabled(s, Handler(c, does))
    ensures var step := Handler(c, does);
            Holds(Apply(s, step).table.handlers[c], name) <==>
              TakesUp(s, step, name) || (Holds(s.table.handlers[c], name) && !StopsHolding(step, c))
  {
    assert |METHOD_INITIALIZE| != |METHOD_INITIALIZED|;
  }

  lemma StepForwards(s: MuxState, step: Step, name: string)
    requires FromClients(name) && Enabled(s, step)
    ensures Forwarded(Apply(s, step), name) == Forwarded(s, name) +
              if step.Handler? && step.does == WriteServer(true) && step.client in InHand(s.table, name) then 1 else 0
  {
    match step
    case Handler(c, does) => HandlerForwards(s, c, does, name);
    case Shutdown => CountAppend(s.traffic.toServer, SHUTDOWN_REQUEST, name);
    case Reader(Reject(ok)) => CountAppend(s.traffic.toServer, Rejection(s.reader.message), name);
    case _ =>
  }

  lemma HandlerForwards(s: MuxState, c: nat, does: HandlerStep, name: string)
    requires Enabled(s, Handler(c, does))
    ensures Forwarded(Apply(s, Handler(c, does)), name) == Forwarded(s, name) +
              if does == WriteServer(true) && c in InHand(s.table, name) then 1 else 0
  {
    if does.WriteServer? {
      CountAppend(s.traffic.toServer, s.table.handlers[c].message, name);
    }
  }

  /**
   Conservation, for every method of the clients: each message that was read under
   a phase that sends it to the server has been forwarded, is in the hands of a
   handler, or was lost in a failed write.
   */
  lemma {:induction false} ForwardedConserved(steps: seq<Step>, s: MuxState, name: string)
    requires Reaches(steps, s) && FromClients(name)
    ensures Forwarded(s, name) + |InHand(s.table, name)| + FailedWrites(steps, name) == TakenUp(steps, name)
  {
    if steps != [] {
      var init, last := steps[..|steps| - 1], steps[|steps| - 1];
      var t := RunFrom(INITIAL, init).value;
      ForwardedConserved(init, t, name);
      RunKeepsRouting(init, t);
      StepForwards(t, last, name);
      forall c: nat
        ensures c in InHand(s.table, name) <==>
                  (TakesUp(t, last, name) && last.client == c) || (c in InHand(t.table, name) && !StopsHolding(last, c))
        ensures TakesUp(t, last, name) && last.client == c ==> c !in InHand(t.table, name)
      {
        StepInHand(t, last, name, c);
      }
      HandCounts(t, last, s, name);
    } else {
      assert InHand(s.table, name) == {};
    }
  }

  lemma HandCounts(s: MuxState, step: Step, t: MuxState, name: string)
    requires Enabled(s, step)
    requires forall c: nat :: c in InHand(t.table, name) <==>
               (TakesUp(s, step, name) && step.client == c) || (c in InHand(s.table, name) && !StopsHolding(step, c))
    requires TakesUp(s, step, name) ==> step.client !in InHand(s.table, name)
    ensures |InHand(t.table, name)|
            + (if step.Handler? && step.does.WriteServer? && step.client in InHand(s.table, name) then 1 else 0)
            == |InHand(s.table, name)| + (if TakesUp(s, step, name) then 1 else 0)
  {
    if step.Handler? && step.does.WriteServer? {
      assert InHand(t.table, name) == InHand(s.table, name) - {step.client};
    } else if TakesUp(s, step, name) {
      assert InHand(t.table, name) == InHand(s.table, name) + {step.client};
    } else {
      assert InHand(t.table, name) == InHand(s.table, name);
    }
  }

  /**
   When no such write failed, a message of a method is forwarded, or about to be,
   at most once exactly when at most one was taken up: for initialize, read under
   phase 0, and for `initialized`, read below phase 2.
   */
  lemma ForwardedOnceIff(steps: seq<Step>, s: MuxState, name: string)
    requires Reaches(steps, s) && FromClients(name) && FailedWrites(steps, name) == 0
    ensures Forwarded(s, name) + |InHand(s.table, name)| <= 1 <==> TakenUp(steps, name) <= 1
  {
    ForwardedConserved(steps, s, name);
  }

  // --- what the orderly runs need of it ---

  predicate WritesInitialized(h: HandlerState) {
    h.Writing? && MethodOf(h.message) == METHOD_INITIALIZED
  }

  /** A request that is given a daemon id is never an `initialized`. */
  ghost predicate RemapsOthers(t: Table) {
    forall c :: c in t.handlers && (t.handlers[c].Remapping? || t.handlers[c].StoringInitID?) ==>
      MethodOf(t.handlers[c].request) != METHOD_INITIALIZED
  }

  lemma StepKeepsRemapsOthers(s: MuxState, step: Step)
    requires RemapsOthers(s.table) && Enabled(s, step)
    ensures RemapsOthers(Apply(s, step).table)
  {
  }

  // --- initialize more than once ---

  /** Two clients that both ask before the first answer: the server is told initialize twice. */
  lemma InitializeTwice() returns (steps: seq<Step>, s: MuxState)
    ensures Reaches(steps, s) && Forwarded(s, METHOD_INITIALIZE) == 2
  {
    var a := StartOf(1);
    RunOfStart(INITIAL, 1);
    var t := RunFrom(INITIAL, a).value;
    RunOfStart(t, 2);
    RunAppend(INITIAL, a, StartOf(2));
    steps := a + StartOf(2);
    s := RunFrom(INITIAL, steps).value;
  }

  /** A client comes, asks to initialize, and has that forwarded under the next daemon id. */
  function StartOf(c: nat): seq<Step> {
    [Accept(c), Handler(c, Read(INITIALIZE)), Handler(c, Register(c)), Handler(c, StoreInitID),
     Handler(c, WriteServer(true))]
  }

  lemma RunOfStart(s: MuxState, c: nat)
    requires s.table.nextID + 1 == s.routes.nextReqID + 1 == c && s.init.phase == 0 && !s.stopping
    ensures RunFrom(s, StartOf(c)).Some?
    ensures var t := RunFrom(s, StartOf(c)).value;
            && t.table.nextID == t.routes.nextReqID == c && t.init.phase == 0 && !t.stopping
            && Forwarded(t, METHOD_INITIALIZE) == Forwarded(s, METHOD_INITIALIZE) + 1
  {
    var f := StartOf(c);
    RunStep(s, [], f[0]);
    RunStep(s, [] + [f[0]], f[1]);
    RunStep(s, [] + [f[0]] + [f[1]], f[2]);
    RunStep(s, [] + [f[0]] + [f[1]] + [f[2]], f[3]);
    RunStep(s, [] + [f[0]] + [f[1]] + [f[2]] + [f[3]], f[4]);
    assert [] + [f[0]] + [f[1]] + [f[2]] + [f[3]] + [f[4]] == f;
    CountAppend(s.traffic.toServer, RewriteID(INITIALIZE, Number(c)), METHOD_INITIALIZE);
  }
}
