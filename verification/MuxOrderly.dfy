/**
 The handshake when clients keep the order of the Initialize Request section of
 LSP 3.17, the server echoes ids (section 5 of JSON-RPC 2.0) and no second
 `initialize` overlaps the first: then the server sees exactly one.
 */
module MuxOrderly {
  import opened Wrappers
  import opened JsonRpc
  import opened Mux
  import opened MuxRouting
  import opened MuxHandshake

  predicate IsInit(m: Message) {
    MethodOf(m) == METHOD_INITIALIZE
  }

  predicate InitIssued(issued: map<int, Issue>, d: int) {
    d in issued && IsInit(issued[d].request)
  }

  /** The request as the server gets it. */
  function Remapped(issued: map<int, Issue>, d: int): Message
    requires d in issued
  {
    RewriteID(issued[d].request, Number(d))
  }

  /** The message answers the request of this daemon id, as the cache or the router reads it. */
  predicate Names(m: Message, d: int) {
    IsResponse(m) && (m.id == Some(Number(d)) || ParseResponseID(m.id.value) == Some(d))
  }

  ghost predicate NoneStarted(tr: Traffic) {
    forall c: nat, k :: 0 <= k < |Sent(tr, c)| ==> !IsInit(Sent(tr, c)[k])
  }

  predicate IsGreeting(issued: map<int, Issue>, delivery: Delivery) {
    delivery.FromCache? || (delivery.Routed? && InitIssued(issued, delivery.daemonID))
  }

  ghost predicate Greeted(s: MuxState, c: nat) {
    exists i :: 0 <= i < |Inbox(s.traffic, c)| && IsGreeting(s.routes.issued, Inbox(s.traffic, c)[i])
  }

  /** A response of the server answers, with the very same id, a request the server was sent. */
  ghost predicate Echoes(s: MuxState, m: Message) {
    forall d :: Names(m, d) ==>
      if d in s.routes.issued then m.id == Some(Number(d)) && Remapped(s.routes.issued, d) in s.traffic.toServer
      else d == SHUTDOWN_ID
  }

  /**
   What is asked of the clients and of the server: initialize is a request, and
   under phase 0 only the first one is sent; `initialized` follows an answer to
   initialize; responses echo ids; and there are fewer than two thousand million
   requests.
   */
  ghost predicate Orderly(s: MuxState, step: Step) {
    match step
    case Handler(c, Read(m)) =>
      && (IsInit(m) ==> IsRequest(m) && (s.init.phase == 0 ==> NoneStarted(s.traffic)))
      && (MethodOf(m) == METHOD_INITIALIZED ==> Greeted(s, c))
    case Handler(_, Register(d)) => d < SHUTDOWN_ID
    case Reader(ServerSends(m)) => Echoes(s, m)
    case _ => true
  }

  ghost predicate OrderlyRun(steps: seq<Step>)
    requires RunFrom(INITIAL, steps).Some?
  {
    steps != [] ==>
      var init := steps[..|steps| - 1];
      OrderlyRun(init) && Orderly(RunFrom(INITIAL, init).value, steps[|steps| - 1])
  }

  // --- one initialize at a time ---

  /** The handler has an initialize in hand that the server has not been sent. */
  predicate Carries(h: HandlerState) {
    (h.Remapping? && IsInit(h.request)) || h.StoringInitID? || (h.Writing? && IsInit(h.message))
  }

  predicate CarriesOk(h: HandlerState, issued: map<int, Issue>, init: Handshake) {
    match h
    case Remapping(m) => IsInit(m) ==> init.reqID.None?
    case StoringInitID(d, m) => InitIssued(issued, d) && m == Remapped(issued, d) && init.reqID.None?
    case Writing(m) =>
      IsInit(m) ==> init.reqID.Some? && InitIssued(issued, init.reqID.value) && m == Remapped(issued, init.reqID.value)
    case _ => true
  }

  ghost predicate OneCarrier(t: Table) {
    forall c, d :: c in t.handlers && d in t.handlers && Carries(t.handlers[c]) && Carries(t.handlers[d]) ==> c == d
  }

  ghost predicate CarriersOk(t: Table, issued: map<int, Issue>, init: Handshake) {
    forall c :: c in t.handlers ==> CarriesOk(t.handlers[c], issued, init)
  }

  /** While one is in hand, nothing of it has happened yet. */
  ghost predicate CarriedFirst(t: Table, init: Handshake, tr: Traffic) {
    forall c :: c in t.handlers && Carries(t.handlers[c]) ==>
      init.phase == 0 && init.response.None? && CountMethod(tr.toServer, METHOD_INITIALIZE) == 0
  }

  /** Until the id of the initialize request is stored, it is known to its handler alone. */
  ghost predicate IssuedOnce(t: Table, issued: map<int, Issue>, init: Handshake) {
    && (forall d, e :: InitIssued(issued, d) && InitIssued(issued, e) ==> d == e)
    && (forall c, d :: c in t.handlers && t.handlers[c].Remapping? && IsInit(t.handlers[c].request) ==>
        !InitIssued(issued, d))
    && (init.reqID.Some? ==> InitIssued(issued, init.reqID.value))
  }

  predicate SentOnce(init: Handshake, issued: map<int, Issue>, tr: Traffic) {
    && CountMethod(tr.toServer, METHOD_INITIALIZE) <= 1
    && (CountMethod(tr.toServer, METHOD_INITIALIZE) == 1 ==>
          init.reqID.Some? && init.reqID.value in issued && Remapped(issued, init.reqID.value) in tr.toServer)
    && (init.response.Some? ==>
          CountMethod(tr.toServer, METHOD_INITIALIZE) == 1 && AnswersInitialize(init, init.response.value))
  }

  /** Once an initialize is in hand, some client has sent it. */
  ghost predicate StartedOk(s: MuxState) {
    forall c :: c in s.table.handlers && Carries(s.table.handlers[c]) ==> !NoneStarted(s.traffic)
  }

  ghost predicate Once(s: MuxState) {
    && OneCarrier(s.table) && CarriersOk(s.table, s.routes.issued, s.init) && CarriedFirst(s.table, s.init, s.traffic)
    && IssuedOnce(s.table, s.routes.issued, s.init) && SentOnce(s.init, s.routes.issued, s.traffic) && StartedOk(s)
  }

  // --- the answer comes first ---

  /** `initialized` is in hand only after an answer to initialize has been cached. */
  ghost predicate InitializedLast(t: Table, init: Handshake) {
    forall c :: c in t.handlers && (t.handlers[c].StoringPhase? || WritesInitialized(t.handlers[c])) ==> init.phase >= 1
  }

  ghost predicate RepliesReady(t: Table, init: Handshake) {
    forall c :: c in t.handlers && t.handlers[c].Replying? ==> init.response.Some?
  }

  predicate CacheReady(s: MuxState) {
    CacheOk(s) && (s.init.phase >= 1 ==> s.init.response.Some?) && (s.reader.Caching? ==> s.init.phase == 0)
  }

  ghost predicate EchoesOk(s: MuxState) {
    forall m :: m in s.traffic.fromServer ==> Echoes(s, m)
  }

  /** Once the answer to initialize has been read, and the read loop is past the cache, it is cached. */
  ghost predicate AnswerCached(s: MuxState) {
    forall m, d :: m in s.traffic.fromServer && Names(m, d) && InitIssued(s.routes.issued, d) ==>
      s.init.phase >= 1 || s.reader == Received(m) || s.reader == Caching(m)
  }

  /** Nobody is greeted before the answer is cached. */
  ghost predicate GreetingsLast(s: MuxState) {
    && (forall c: nat :: Greeted(s, c) ==> s.init.phase >= 1)
    && (s.reader.Delivering? && s.reader.targets != {} && IsGreeting(s.routes.issued, s.reader.delivery) ==>
        s.init.phase >= 1)
  }

  ghost predicate Served(s: MuxState) {
    && CacheReady(s) && RemapsOthers(s.table) && InitializedLast(s.table, s.init) && RepliesReady(s.table, s.init)
    && EchoesOk(s) && AnswerCached(s) && GreetingsLast(s)
  }

  /** The one step with which a handler takes up an initialize. */
  predicate Starts(s: MuxState, step: Step, c: nat) {
    step.Handler? && step.client == c && step.does.Read? && IsInit(step.does.message) && s.init.phase == 0
  }

  lemma StepCarries(s: MuxState, step: Step, c: nat)
    requires Enabled(s, step) && c in Apply(s, step).table.handlers && Carries(Apply(s, step).table.handlers[c])
    ensures Starts(s, step, c) || (c in s.table.handlers && Carries(s.table.handlers[c]))
  {
  }

  /** When an initialize is taken up, there is no other. */
  lemma StartsAlone(s: MuxState, step: Step, c: nat)
    requires Routing(s) && Once(s) && Enabled(s, step) && Orderly(s, step) && Starts(s, step, c)
    ensures NoneStarted(s.traffic) && IsRequest(step.does.message)
    ensures forall d :: d in s.table.handlers ==> !Carries(s.table.handlers[d])
    ensures forall d :: !InitIssued(s.routes.issued, d)
    ensures s.init.reqID.None? && s.init.response.None? && CountMethod(s.traffic.toServer, METHOD_INITIALIZE) == 0
  {
    forall d ensures !InitIssued(s.routes.issued, d) {
      if d in s.routes.issued {
        assert IsIssue(s.traffic, s.routes.issued[d]);
      }
    }
  }

  lemma StepKeepsOneCarrier(s: MuxState, step: Step)
    requires Routing(s) && Once(s) && Enabled(s, step) && Orderly(s, step)
    ensures OneCarrier(Apply(s, step).table)
  {
    var t := Apply(s, step);
    forall c, d | c in t.table.handlers && d in t.table.handlers && Carries(t.table.handlers[c])
      && Carries(t.table.handlers[d])
      ensures c == d
    {
      StepCarries(s, step, c);
      StepCarries(s, step, d);
      if Starts(s, step, c) {
        StartsAlone(s, step, c);
      } else if Starts(s, step, d) {
        StartsAlone(s, step, d);
      }
    }
  }

  /** What a step does to the daemon ids and to the id kept for the cache. */
  lemma StepReqID(s: MuxState, step: Step)
    requires Enabled(s, step)
    ensures var t := Apply(s, step);
            && (step.Handler? && step.does.StoreInitID? ==>
                  t.init.reqID == Some(s.table.handlers[step.client].daemonID)
                    && Carries(s.table.handlers[step.client]))
            && (!(step.Handler? && step.does.StoreInitID?) ==> t.init.reqID == s.init.reqID)
            && (step.Handler? && step.does.Register? && IsInit(s.table.handlers[step.client].request) ==>
                  Carries(s.table.handlers[step.client]))
  {
  }

  /** What another handler does leaves what this one carries as it is. */
  lemma OthersKeepCarriesOk(h: HandlerState, issued: map<int, Issue>, init: Handshake, issued': map<int, Issue>,
                            init': Handshake)
    requires CarriesOk(h, issued, init) && init'.reqID == init.reqID
    requires forall d :: d in issued ==> d in issued' && issued'[d] == issued[d]
    ensures CarriesOk(h, issued', init')
  {
  }

  /** The handler's own step. */
  lemma OwnStepCarriesOk(s: MuxState, c: nat, does: HandlerStep)
    requires Enabled(s, Handler(c, does)) && CarriesOk(s.table.handlers[c], s.routes.issued, s.init)
    requires does.Read? && IsInit(does.message) && s.init.phase == 0 ==> IsRequest(does.message) && s.init.reqID.None?
    ensures var t := Apply(s, Handler(c, does)); CarriesOk(t.table.handlers[c], t.routes.issued, t.init)
  {
  }

  lemma IssuedGrows(s: MuxState, step: Step)
    requires IssuedOk(s.routes.issued, s.routes.nextReqID, s.traffic) && Enabled(s, step)
    ensures forall d :: d in s.routes.issued ==>
              d in Apply(s, step).routes.issued && Apply(s, step).routes.issued[d] == s.routes.issued[d]
  {
    StepIssues(s, step);
  }

  /** While one handler has an initialize in hand, no other stores the id of one. */
  lemma OthersStoreNothing(s: MuxState, step: Step, c: nat)
    requires OneCarrier(s.table) && c in s.table.handlers && Carries(s.table.handlers[c]) && Enabled(s, step)
    requires !(step.Handler? && step.client == c)
    ensures Apply(s, step).init.reqID == s.init.reqID
  {
    StepReqID(s, step);
  }

  lemma StepKeepsCarriesOk(s: MuxState, step: Step, c: nat)
    requires Routing(s) && Once(s) && Enabled(s, step) && Orderly(s, step) && c in Apply(s, step).table.handlers
    ensures var t := Apply(s, step); CarriesOk(t.table.handlers[c], t.routes.issued, t.init)
  {
    if step.Handler? && step.client == c {
      if Starts(s, step, c) {
        StartsAlone(s, step, c);
      }
      OwnStepCarriesOk(s, c, step.does);
    } else {
      OthersStepCarriesOk(s, step, c);
    }
  }

  lemma OthersStepCarriesOk(s: MuxState, step: Step, c: nat)
    requires IssuedOk(s.routes.issued, s.routes.nextReqID, s.traffic) && OneCarrier(s.table) && Enabled(s, step)
    requires CarriersOk(s.table, s.routes.issued, s.init) && c in Apply(s, step).table.handlers
    requires !(step.Handler? && step.client == c)
    ensures var t := Apply(s, step); CarriesOk(t.table.handlers[c], t.routes.issued, t.init)
  {
    var t := Apply(s, step);
    OthersKeepHandler(s, step, c);
    if Carries(t.table.handlers[c]) {
      OthersStoreNothing(s, step, c);
      IssuedGrows(s, step);
      OthersKeepCarriesOk(s.table.handlers[c], s.routes.issued, s.init, t.routes.issued, t.init);
    } else {
      CarriesNothing(t.table.handlers[c], t.routes.issued, t.init);
    }
  }

  lemma CarriesNothing(h: HandlerState, issued: map<int, Issue>, init: Handshake)
    requires !Carries(h)
    ensures CarriesOk(h, issued, init)
  {
  }

  lemma {:induction false} CountMember(messages: seq<Message>, m: Message, name: string)
    requires m in messages && MethodOf(m) == name
    ensures CountMethod(messages, name) >= 1
  {
    if m != messages[|messages| - 1] {
      CountMember(messages[..|messages| - 1], m, name);
    }
  }

  /** When the response is cached, the request has been sent. */
  lemma CachedAfterSent(s: MuxState)
    requires EchoesOk(s) && ReceivedOk(s.reader, s.traffic) && IssuedOnce(s.table, s.routes.issued, s.init)
    requires s.reader.Received? && AnswersInitialize(s.init, s.reader.message)
    ensures CountMethod(s.traffic.toServer, METHOD_INITIALIZE) >= 1
  {
    var d := s.init.reqID.value;
    assert Echoes(s, s.reader.message) && Names(s.reader.message, d);
    CountMember(s.traffic.toServer, Remapped(s.routes.issued, d), METHOD_INITIALIZE);
  }

  /** What a step does to the phase and to the cached response. */
  lemma StepCache(s: MuxState, step: Step)
    requires Enabled(s, step)
    ensures var t := Apply(s, step);
            && (t.init.phase == if step.Handler? && step.does.StorePhase? then 2 else if step == Reader(StoreOne) then 1
                else s.init.phase)
            && (t.init.response == if step == Reader(CheckCache) && s.init.phase == 0
                && AnswersInitialize(s.init, s.reader.message)
                                   then Some(s.reader.message) else s.init.response)
  {
  }

  /** Which initialize a step sends to the server. */
  lemma StepSends(s: MuxState, step: Step)
    requires Enabled(s, step)
    ensures s.traffic.toServer <= Apply(s, step).traffic.toServer
    ensures CountMethod(Apply(s, step).traffic.toServer, METHOD_INITIALIZE) ==
              CountMethod(s.traffic.toServer, METHOD_INITIALIZE) + if SendsInit(s, step) then 1 else 0
  {
    match step
    case Handler(c, does) => HandlerSends(s, c, does);
    case Shutdown => CountAppend(s.traffic.toServer, SHUTDOWN_REQUEST, METHOD_INITIALIZE);
    case Reader(Reject(ok)) => CountAppend(s.traffic.toServer, Rejection(s.reader.message), METHOD_INITIALIZE);
    case _ =>
  }

  lemma HandlerSends(s: MuxState, c: nat, does: HandlerStep)
    requires Enabled(s, Handler(c, does))
    ensures var t := Apply(s, Handler(c, does));
            && s.traffic.toServer <= t.traffic.toServer
            && CountMethod(t.traffic.toServer, METHOD_INITIALIZE) ==
                 CountMethod(s.traffic.toServer, METHOD_INITIALIZE) + if SendsInit(s, Handler(c, does)) then 1 else 0
  {
    if does.WriteServer? {
      CountAppend(s.traffic.toServer, s.table.handlers[c].message, METHOD_INITIALIZE);
    }
  }

  predicate SendsInit(s: MuxState, step: Step)
    requires Enabled(s, step)
  {
    step.Handler? && step.does == WriteServer(true) && IsInit(s.table.handlers[step.client].message)
  }

  lemma StepKeepsCarriedFirst(s: MuxState, step: Step, c: nat)
    requires Routing(s) && Once(s) && Served(s) && Enabled(s, step) && Orderly(s, step)
    requires c in Apply(s, step).table.handlers && Carries(Apply(s, step).table.handlers[c])
    ensures var t := Apply(s, step);
            t.init.phase == 0 && t.init.response.None? && CountMethod(t.traffic.toServer, METHOD_INITIALIZE) == 0
  {
    StepCarries(s, step, c);
    StepCache(s, step);
    StepSends(s, step);
    if Starts(s, step, c) {
      StartsAlone(s, step, c);
    } else if step == Reader(CheckCache) && AnswersInitialize(s.init, s.reader.message) {
      CachedAfterSent(s);
    }
  }

  lemma StepKeepsStarted(s: MuxState, step: Step, c: nat)
    requires StartedOk(s) && Enabled(s, step)
    requires c in Apply(s, step).table.handlers && Carries(Apply(s, step).table.handlers[c])
    ensures !NoneStarted(Apply(s, step).traffic)
  {
    var t := Apply(s, step);
    StepCarries(s, step, c);
    StepIssues(s, step);
    if Starts(s, step, c) {
      var sent := Sent(t.traffic, c);
      assert IsInit(sent[|sent| - 1]);
    } else {
      var b: nat, k :| 0 <= k < |Sent(s.traffic, b)| && IsInit(Sent(s.traffic, b)[k]);
      assert IsInit(Sent(t.traffic, b)[k]);
    }
  }

  /** Only the handler that has an initialize in hand gets a daemon id for one. */
  lemma NewInit(s: MuxState, step: Step, d: int)
    requires Enabled(s, step) && InitIssued(Apply(s, step).routes.issued, d) && !InitIssued(s.routes.issued, d)
    ensures step.Handler? && step.does.Register? && d == s.routes.nextReqID + 1
    ensures s.table.handlers[step.client].Remapping? && IsInit(s.table.handlers[step.client].request)
    ensures !Apply(s, step).table.handlers[step.client].Remapping?
  {
    StepIssues(s, step);
  }

  lemma StepKeepsUnissued(s: MuxState, step: Step, c: nat, d: int)
    requires Routing(s) && Once(s) && Enabled(s, step) && Orderly(s, step)
    requires var t := Apply(s, step);
             c in t.table.handlers && t.table.handlers[c].Remapping? && IsInit(t.table.handlers[c].request)
    ensures !InitIssued(Apply(s, step).routes.issued, d)
  {
    StepRemapsInit(s, step, c);
    if Starts(s, step, c) {
      StartsAlone(s, step, c);
    }
    if InitIssued(Apply(s, step).routes.issued, d) && !InitIssued(s.routes.issued, d) {
      NewInit(s, step, d);
    }
  }

  /** A handler that is to remap an initialize has just read it, or was there before and is not moved. */
  lemma StepRemapsInit(s: MuxState, step: Step, c: nat)
    requires Enabled(s, step) && c in Apply(s, step).table.handlers
    requires Apply(s, step).table.handlers[c].Remapping? && IsInit(Apply(s, step).table.handlers[c].request)
    ensures Starts(s, step, c) || (c in s.table.handlers && s.table.handlers[c] == Apply(s, step).table.handlers[c])
    ensures step.Handler? && step.does.Register? ==> step.client != c
  {
    if !(step.Handler? && step.client == c) {
      OthersKeepHandler(s, step, c);
    }
  }

  lemma StepKeepsIssuedOnce(s: MuxState, step: Step)
    requires Routing(s) && Once(s) && Enabled(s, step) && Orderly(s, step)
    ensures var t := Apply(s, step); IssuedOnce(t.table, t.routes.issued, t.init)
  {
    var t := Apply(s, step);
    StepReqID(s, step);
    StepIssues(s, step);
    forall c, d | c in t.table.handlers && t.table.handlers[c].Remapping? && IsInit(t.table.handlers[c].request)
      ensures !InitIssued(t.routes.issued, d)
    {
      StepKeepsUnissued(s, step, c, d);
    }
    forall d, e | InitIssued(t.routes.issued, d) && InitIssued(t.routes.issued, e) ensures d == e {
      if !InitIssued(s.routes.issued, d) {
        NewInit(s, step, d);
      }
      if !InitIssued(s.routes.issued, e) {
        NewInit(s, step, e);
      }
    }
    if step.Handler? && step.does.StoreInitID? {
      assert CarriesOk(s.table.handlers[step.client], s.routes.issued, s.init);
    }
  }

  lemma StepKeepsSentOnce(s: MuxState, step: Step)
    requires Routing(s) && Once(s) && Served(s) && Enabled(s, step)
    ensures var t := Apply(s, step); SentOnce(t.init, t.routes.issued, t.traffic)
  {
    StepReqID(s, step);
    StepIssues(s, step);
    StepSends(s, step);
    StepCache(s, step);
    if SendsInit(s, step) {
      var h := s.table.handlers[step.client];
      assert Carries(h) && CarriesOk(h, s.routes.issued, s.init);
    } else if step == Reader(CheckCache) && AnswersInitialize(s.init, s.reader.message) {
      CachedAfterSent(s);
    }
  }

  lemma StepKeepsOnce(s: MuxState, step: Step)
    requires Routing(s) && Once(s) && Served(s) && Enabled(s, step) && Orderly(s, step)
    ensures Once(Apply(s, step))
  {
    var t := Apply(s, step);
    StepKeepsOneCarrier(s, step);
    StepKeepsIssuedOnce(s, step);
    StepKeepsSentOnce(s, step);
    forall c | c in t.table.handlers ensures CarriesOk(t.table.handlers[c], t.routes.issued, t.init) {
      StepKeepsCarriesOk(s, step, c);
    }
    forall c | c in t.table.handlers && Carries(t.table.handlers[c])
      ensures t.init.phase == 0 && t.init.response.None? && CountMethod(t.traffic.toServer, METHOD_INITIALIZE) == 0
      ensures !NoneStarted(t.traffic)
    {
      StepKeepsCarriedFirst(s, step, c);
      StepKeepsStarted(s, step, c);
    }
  }

  lemma StepKeepsCacheReady(s: MuxState, step: Step)
    requires Served(s) && Enabled(s, step)
    ensures CacheReady(Apply(s, step))
  {
    StepKeepsCache(s, step);
    StepCache(s, step);
  }

  lemma StepKeepsInitializedLast(s: MuxState, step: Step)
    requires Served(s) && Enabled(s, step) && Orderly(s, step)
    ensures InitializedLast(Apply(s, step).table, Apply(s, step).init)
  {
    StepCache(s, step);
  }

  lemma StepKeepsRepliesReady(s: MuxState, step: Step)
    requires Served(s) && Enabled(s, step)
    ensures RepliesReady(Apply(s, step).table, Apply(s, step).init)
  {
    StepKeepsCache(s, step);
  }

  lemma EchoesStays(s: MuxState, step: Step, m: Message)
    requires Routing(s) && Echoes(s, m) && Enabled(s, step) && Orderly(s, step)
    ensures Echoes(Apply(s, step), m)
  {
    StepIssues(s, step);
    StepSends(s, step);
  }

  lemma StepHears(s: MuxState, step: Step)
    requires Enabled(s, step)
    ensures Apply(s, step).traffic.fromServer ==
              if step.Reader? && step.loop.ServerSends? then s.traffic.fromServer + [step.loop.message]
                else s.traffic.fromServer
  {
  }

  lemma StepKeepsEchoes(s: MuxState, step: Step)
    requires Routing(s) && EchoesOk(s) && Enabled(s, step) && Orderly(s, step)
    ensures EchoesOk(Apply(s, step))
  {
    StepHears(s, step);
    forall m | m in Apply(s, step).traffic.fromServer ensures Echoes(Apply(s, step), m) {
      EchoesStays(s, step, m);
    }
  }

  /** A message that answers initialize is recognised by the cache. */
  lemma AnswerIsRecognised(s: MuxState, m: Message, d: int)
    requires Once(s) && EchoesOk(s) && m in s.traffic.fromServer && Names(m, d) && InitIssued(s.routes.issued, d)
    ensures AnswersInitialize(s.init, m)
  {
    assert Echoes(s, m);
    CountMember(s.traffic.toServer, Remapped(s.routes.issued, d), METHOD_INITIALIZE);
  }

  /** Where the read loop goes from a message it has received. */
  lemma StepReads(s: MuxState, step: Step)
    requires Enabled(s, step)
    ensures var t := Apply(s, step);
            && (s.reader.Received? && t.reader != s.reader ==>
                  step == Reader(CheckCache) &&
                  t.reader == if s.init.phase == 0 && AnswersInitialize(s.init, s.reader.message)
                    then Caching(s.reader.message)
                              else Forwarding(s.reader.message))
            && (s.reader.Caching? && t.reader != s.reader ==> step == Reader(StoreOne))
            && (step.Reader? && step.loop.ServerSends? ==> t.reader == Received(step.loop.message))
  {
  }

  lemma StepKeepsAnswerCached(s: MuxState, step: Step, m: Message, d: int)
    requires Routing(s) && Once(s) && Served(s) && Enabled(s, step) && Orderly(s, step)
    requires var t := Apply(s, step); m in t.traffic.fromServer && Names(m, d) && InitIssued(t.routes.issued, d)
    ensures var t := Apply(s, step); t.init.phase >= 1 || t.reader == Received(m) || t.reader == Caching(m)
  {
    StepIssues(s, step);
    StepCache(s, step);
    StepHears(s, step);
    StepReads(s, step);
    if m in s.traffic.fromServer {
      assert Echoes(s, m);
      assert InitIssued(s.routes.issued, d);
      AnswerIsRecognised(s, m, d);
    }
  }

  /** What is a greeting stays one, and nothing delivered becomes one. */
  lemma GreetingStays(s: MuxState, step: Step, c: nat, delivery: Delivery)
    requires Routing(s) && Enabled(s, step) && OwnAnswer(s.routes, c, delivery)
    ensures IsGreeting(Apply(s, step).routes.issued, delivery) <==> IsGreeting(s.routes.issued, delivery)
  {
    StepIssues(s, step);
  }

  lemma StepKeepsGreeted(s: MuxState, step: Step, c: nat)
    requires Routing(s) && Served(s) && Enabled(s, step) && Greeted(Apply(s, step), c)
    ensures Apply(s, step).init.phase >= 1
  {
    var t := Apply(s, step);
    StepCache(s, step);
    StepDelivers(s, step, c);
    var inbox := Inbox(s.traffic, c);
    var i :| 0 <= i < |Inbox(t.traffic, c)| && IsGreeting(t.routes.issued, Inbox(t.traffic, c)[i]);
    if i < |inbox| {
      assert OwnInbox(s.routes, c, inbox);
      GreetingStays(s, step, c, inbox[i]);
      assert Greeted(s, c);
    } else if step.Reader? {
      assert OwnAnswer(s.routes, c, s.reader.delivery);
      GreetingStays(s, step, c, s.reader.delivery);
    }
  }

  lemma StepKeepsDeliveredGreeting(s: MuxState, step: Step)
    requires Routing(s) && Once(s) && Served(s) && Enabled(s, step)
    requires var t := Apply(s, step);
             t.reader.Delivering? && t.reader.targets != {} && IsGreeting(t.routes.issued, t.reader.delivery)
    ensures Apply(s, step).init.phase >= 1
  {
    StepCache(s, step);
    if s.reader.Delivering? {
      DeliveryStays(s, step);
      var c: nat :| c in Apply(s, step).reader.targets;
      GreetingStays(s, step, c, s.reader.delivery);
    } else {
      NewDelivery(s, step);
      ForwardedGreeting(s, step.loop.message, step.loop.target);
    }
  }

  lemma DeliveryStays(s: MuxState, step: Step)
    requires Enabled(s, step) && s.reader.Delivering? && Apply(s, step).reader.Delivering?
    ensures var t := Apply(s, step); t.reader.delivery == s.reader.delivery && t.reader.targets <= s.reader.targets
  {
  }

  lemma NewDelivery(s: MuxState, step: Step)
    requires Enabled(s, step) && !s.reader.Delivering? && Apply(s, step).reader.Delivering?
    ensures step.Reader? && step.loop.Forward? && s.reader == Forwarding(step.loop.message)
    ensures Apply(s, step) == ForwardOn(s, step.loop.message, step.loop.target)
  {
  }

  /** The answer to initialize is forwarded when it has been cached. */
  lemma ForwardedGreeting(s: MuxState, m: Message, target: Option<nat>)
    requires AnswerCached(s) && ReceivedOk(s.reader, s.traffic) && s.reader == Forwarding(m)
    requires var t := ForwardOn(s, m, target); t.reader.Delivering? && IsGreeting(t.routes.issued, t.reader.delivery)
    ensures s.init.phase >= 1
  {
    var d := Answered(s.routes.pending, m).value;
    assert m in s.traffic.fromServer && Names(m, d) && InitIssued(s.routes.issued, d);
  }

  lemma StepKeepsServed(s: MuxState, step: Step)
    requires Routing(s) && Once(s) && Served(s) && Enabled(s, step) && Orderly(s, step)
    ensures Served(Apply(s, step))
  {
    var t := Apply(s, step);
    StepKeepsCacheReady(s, step);
    StepKeepsRemapsOthers(s, step);
    StepKeepsInitializedLast(s, step);
    StepKeepsRepliesReady(s, step);
    StepKeepsEchoes(s, step);
    forall m, d | m in t.traffic.fromServer && Names(m, d) && InitIssued(t.routes.issued, d)
      ensures t.init.phase >= 1 || t.reader == Received(m) || t.reader == Caching(m)
    {
      StepKeepsAnswerCached(s, step, m, d);
    }
    forall c: nat | Greeted(t, c) ensures t.init.phase >= 1 {
      StepKeepsGreeted(s, step, c);
    }
    if t.reader.Delivering? && t.reader.targets != {} && IsGreeting(t.routes.issued, t.reader.delivery) {
      StepKeepsDeliveredGreeting(s, step);
    }
  }

  lemma {:induction false} OrderlyRunHolds(steps: seq<Step>, s: MuxState)
    requires Reaches(steps, s) && OrderlyRun(steps)
    ensures Routing(s) && Once(s) && Served(s)
  {
    RunKeepsRouting(steps, s);
    if steps != [] {
      var init, last := steps[..|steps| - 1], steps[|steps| - 1];
      var t := RunFrom(INITIAL, init).value;
      OrderlyRunHolds(init, t);
      StepKeepsOnce(t, last);
      StepKeepsServed(t, last);
    } else {
      assert forall c: nat :: Inbox(s.traffic, c) == [];
    }
  }

  /**
   In an orderly run the server is sent at most one initialize, and exactly one
   once there is a phase to speak of; the phase has not fallen; and the daemon is
   never wedged.
   */
  lemma ExactlyOneInitialize(steps: seq<Step>, s: MuxState)
    requires Reaches(steps, s) && OrderlyRun(steps)
    ensures CountMethod(s.traffic.toServer, METHOD_INITIALIZE) <= 1
    ensures s.init.phase >= 1 ==> CountMethod(s.traffic.toServer, METHOD_INITIALIZE) == 1
    ensures !Wedged(s) && !PhaseFell(steps)
  {
    OrderlyRunHolds(steps, s);
    OrderlyNeverStoresWhileCaching(steps, s);
    PhaseHistory(steps, s);
  }

  lemma {:induction false} OrderlyNeverStoresWhileCaching(steps: seq<Step>, s: MuxState)
    requires Reaches(steps, s) && OrderlyRun(steps)
    ensures !StoredWhileCaching(steps)
  {
    if steps != [] {
      var init := steps[..|steps| - 1];
      OrderlyNeverStoresWhileCaching(init, RunFrom(INITIAL, init).value);
      OrderlyRunHolds(init, RunFrom(INITIAL, init).value);
    }
  }

  /**
   In an orderly run, once the read loop has got past the answer to the
   initialize request that was given daemon id d, that answer is cached: whether
   or not the client that asked is still there.
   */
  lemma AnswerIsCached(steps: seq<Step>, s: MuxState, m: Message, d: int)
    requires Reaches(steps, s) && OrderlyRun(steps)
    requires m in s.traffic.fromServer && Names(m, d) && InitIssued(s.routes.issued, d)
    requires s.reader != Received(m) && s.reader != Caching(m)
    ensures s.init.phase >= 1 && s.init.response.Some? && Names(s.init.response.value, d)
  {
    OrderlyRunHolds(steps, s);
    AnswerIsRecognised(s, m, d);
  }

  /**
   In an orderly run no client that initializes later is turned away for want of
   a response: when its connection holds, it is sent the cached one under the id
   it asked with.
   */
  lemma LaterClientsAreGreeted(steps: seq<Step>, s: MuxState, c: nat, request: Message)
    requires Reaches(steps, s) && OrderlyRun(steps) && c in s.table.handlers
    requires s.table.handlers[c] == Replying(request) && IsRequest(request) && c in s.table.open
    requires Enabled(s, Handler(c, Reply(true)))
    ensures s.init.response.Some?
    ensures var t := Apply(s, Handler(c, Reply(true)));
            && t.table.handlers[c] == Reading
            && Inbox(t.traffic, c)
               == Inbox(s.traffic, c) + [FromCache(RewriteID(s.init.response.value, request.id.value))]
  {
    OrderlyRunHolds(steps, s);
    StepDelivers(s, Handler(c, Reply(true)), c);
  }

  // --- what order does not give ---

  predicate Same(s: MuxState, t: MuxState) {
    && s.table.clients == t.table.clients && s.table.nextID == t.table.nextID && s.table.open == t.table.open
    && s.table.handlers == t.table.handlers
    && s.routes.pending == t.routes.pending && s.routes.nextReqID == t.routes.nextReqID
    && s.routes.issued == t.routes.issued && s.routes.answered == t.routes.answered
    && s.init == t.init && s.reader == t.reader && s.stopping == t.stopping
    && s.traffic.sent == t.traffic.sent && s.traffic.toServer == t.traffic.toServer
    && s.traffic.fromServer == t.traffic.fromServer && s.traffic.inbox == t.traffic.inbox
  }

  lemma OrderlyStep(steps: seq<Step>, s: MuxState, step: Step, t: MuxState) returns (more: seq<Step>)
    requires Reaches(steps, s) && OrderlyRun(steps) && Enabled(s, step) && Orderly(s, step) && Same(Apply(s, step), t)
    ensures Reaches(more, t) && OrderlyRun(more)
  {
    RunStep(INITIAL, steps, step);
    assert (steps + [step])[..|steps|] == steps;
    more := steps + [step];
  }

  const ASKED: map<nat, seq<Message>> := map[1 := [INITIALIZE]]
  const UNANSWERED: Routes := Routes(map[1 := Pending(1, Number(1))], 1, map[1 := Issue(1, 0, INITIALIZE)], map[])
  const ANSWERED: Routes := Routes(map[], 1, map[1 := Issue(1, 0, INITIALIZE)], map[1 := CAPABILITIES])

  /** The first client, with its answer yet to come. */
  function Waiting(h: HandlerState, reader: ReaderState, init: Handshake, toServer: seq<Message>,
                   fromServer: seq<Message>): MuxState {
    MuxState(Table({1}, 1, {1}, map[1 := h]), UNANSWERED, init, reader, Traffic(ASKED, toServer, fromServer, map[]),
             false)
  }

  lemma FirstRead() returns (steps: seq<Step>)
    ensures Reaches(steps, INITIAL.(table := Table({1}, 1, {1}, map[1 := Remapping(INITIALIZE)]),
                                    traffic := Traffic(ASKED, [], [], map[])))
    ensures OrderlyRun(steps)
  {
    var s1 := INITIAL.(table := Table({1}, 1, {1}, map[1 := Reading]));
    steps := OrderlyStep([], INITIAL, Accept(1), s1);
    var s2 := s1.(table := Table({1}, 1, {1}, map[1 := Remapping(INITIALIZE)]),
                  traffic := Traffic(ASKED, [], [], map[]));
    assert Sent(s1.traffic, 1) + [INITIALIZE] == [INITIALIZE];
    steps := OrderlyStep(steps, s1, Handler(1, Read(INITIALIZE)), s2);
  }

  lemma FirstRemap() returns (steps: seq<Step>)
    ensures Reaches(steps, Waiting(StoringInitID(1, INITIALIZE), Idle, Handshake(0, None, None), [], []))
    ensures OrderlyRun(steps)
  {
    steps := FirstRead();
    var s2 := INITIAL.(table := Table({1}, 1, {1}, map[1 := Remapping(INITIALIZE)]),
                       traffic := Traffic(ASKED, [], [], map[]));
    assert RewriteID(INITIALIZE, Number(1)) == INITIALIZE && Sent(s2.traffic, 1) == [INITIALIZE];
    steps := OrderlyStep(steps, s2, Handler(1, Register(1)),
                         Waiting(StoringInitID(1, INITIALIZE), Idle, Handshake(0, None, None), [], []));
  }

  lemma FirstRequest() returns (steps: seq<Step>)
    ensures Reaches(steps, Waiting(Reading, Idle, Handshake(0, None, Some(1)), [INITIALIZE], [])) && OrderlyRun(steps)
  {
    steps := FirstRemap();
    var s3 := Waiting(StoringInitID(1, INITIALIZE), Idle, Handshake(0, None, None), [], []);
    var s4 := Waiting(Writing(INITIALIZE), Idle, Handshake(0, None, Some(1)), [], []);
    steps := OrderlyStep(steps, s3, Handler(1, StoreInitID), s4);
    steps := OrderlyStep(steps, s4, Handler(1, WriteServer(true)),
                         Waiting(Reading, Idle, Handshake(0, None, Some(1)), [INITIALIZE], []));
  }

  const CACHED: Handshake := Handshake(1, Some(CAPABILITIES), Some(1))

  lemma FirstAnswer() returns (steps: seq<Step>)
    ensures Reaches(steps, Waiting(Reading, Forwarding(CAPABILITIES), CACHED, [INITIALIZE], [CAPABILITIES]))
    ensures OrderlyRun(steps)
  {
    steps := FirstRequest();
    var s1 := Waiting(Reading, Idle, Handshake(0, None, Some(1)), [INITIALIZE], []);
    assert Remapped(UNANSWERED.issued, 1) == INITIALIZE && Echoes(s1, CAPABILITIES);
    var s2 := Waiting(Reading, Received(CAPABILITIES), Handshake(0, None, Some(1)), [INITIALIZE], [CAPABILITIES]);
    steps := OrderlyStep(steps, s1, Reader(ServerSends(CAPABILITIES)), s2);
    var s3 := Waiting(Reading, Caching(CAPABILITIES),
                      Handshake(0, Some(CAPABILITIES), Some(1)), [INITIALIZE], [CAPABILITIES]);
    steps := OrderlyStep(steps, s2, Reader(CheckCache), s3);
    steps := OrderlyStep(steps, s3, Reader(StoreOne),
                         Waiting(Reading, Forwarding(CAPABILITIES), CACHED, [INITIALIZE], [CAPABILITIES]));
  }

  /** The first client has its answer. */
  function Alone(reader: ReaderState, inbox: map<nat, seq<Delivery>>): MuxState {
    MuxState(Table({1}, 1, {1}, map[1 := Reading]), ANSWERED, CACHED, reader,
             Traffic(ASKED, [INITIALIZE], [CAPABILITIES], inbox), false)
  }

  const GREETED_ONE: map<nat, seq<Delivery>> := map[1 := [Routed(1, CAPABILITIES)]]

  lemma FirstGreeting() returns (steps: seq<Step>)
    ensures Reaches(steps, Alone(Idle, GREETED_ONE)) && OrderlyRun(steps)
  {
    steps := FirstAnswer();
    var s1 := Waiting(Reading, Forwarding(CAPABILITIES), CACHED, [INITIALIZE], [CAPABILITIES]);
    var s2 := Alone(Delivering({1}, Routed(1, CAPABILITIES)), map[]);
    steps := OrderlyStep(steps, s1, Reader(Forward(CAPABILITIES, None)), s2);
    var s3 := Alone(Delivering({}, Routed(1, CAPABILITIES)), GREETED_ONE);
    assert Inbox(s2.traffic, 1) + [Routed(1, CAPABILITIES)] == [Routed(1, CAPABILITIES)];
    steps := OrderlyStep(steps, s2, Reader(WriteClient(1, true)), s3);
    steps := OrderlyStep(steps, s3, Reader(EndDelivery), Alone(Idle, GREETED_ONE));
  }

  /** Two greeted clients. */
  function Pair(first: HandlerState, second: HandlerState, sent: map<nat, seq<Message>>, inbox: map<nat, seq<Delivery>>,
                toServer: seq<Message>): MuxState {
    MuxState(Table({1, 2}, 2, {1, 2}, map[1 := first, 2 := second]), ANSWERED, CACHED, Idle,
             Traffic(sent, toServer, [CAPABILITIES], inbox), false)
  }

  const ASKED_BOTH: map<nat, seq<Message>> := map[1 := [INITIALIZE], 2 := [INITIALIZE]]
  const GREETED_BOTH: map<nat, seq<Delivery>> := map[1 := [Routed(1, CAPABILITIES)], 2 := [FromCache(CAPABILITIES)]]

  lemma SecondAsked() returns (steps: seq<Step>)
    ensures Reaches(steps, Pair(Reading, Replying(INITIALIZE), ASKED_BOTH, GREETED_ONE, [INITIALIZE]))
            && OrderlyRun(steps)
  {
    steps := FirstGreeting();
    var s2 := Pair(Reading, Reading, ASKED, GREETED_ONE, [INITIALIZE]);
    steps := OrderlyStep(steps, Alone(Idle, GREETED_ONE), Accept(2), s2);
    var s3 := Pair(Reading, Replying(INITIALIZE), ASKED_BOTH, GREETED_ONE, [INITIALIZE]);
    assert Sent(s2.traffic, 2) + [INITIALIZE] == [INITIALIZE];
    steps := OrderlyStep(steps, s2, Handler(2, Read(INITIALIZE)), s3);
  }

  lemma SecondGreeting() returns (steps: seq<Step>)
    ensures Reaches(steps, Pair(Reading, Reading, ASKED_BOTH, GREETED_BOTH, [INITIALIZE])) && OrderlyRun(steps)
  {
    steps := SecondAsked();
    var s3 := Pair(Reading, Replying(INITIALIZE), ASKED_BOTH, GREETED_ONE, [INITIALIZE]);
    assert Inbox(s3.traffic, 2) + [FromCache(CAPABILITIES)] == [FromCache(CAPABILITIES)];
    steps := OrderlyStep(steps, s3, Handler(2, Reply(true)),
                         Pair(Reading, Reading, ASKED_BOTH, GREETED_BOTH, [INITIALIZE]));
  }

  const SENT_BOTH: map<nat, seq<Message>> := map[1 := [INITIALIZE, INITIALIZED], 2 := [INITIALIZE, INITIALIZED]]

  lemma BothRead() returns (steps: seq<Step>)
    ensures Reaches(steps, Pair(Writing(INITIALIZED), Writing(INITIALIZED), SENT_BOTH, GREETED_BOTH, [INITIALIZE]))
    ensures OrderlyRun(steps)
  {
    steps := SecondGreeting();
    var one := map[1 := [INITIALIZE, INITIALIZED], 2 := [INITIALIZE]];
    var s0 := Pair(Reading, Reading, ASKED_BOTH, GREETED_BOTH, [INITIALIZE]);
    assert IsGreeting(s0.routes.issued, Inbox(s0.traffic, 1)[0]);
    var s1 := Pair(Writing(INITIALIZED), Reading, one, GREETED_BOTH, [INITIALIZE]);
    assert Sent(s0.traffic, 1) + [INITIALIZED] == [INITIALIZE, INITIALIZED];
    steps := OrderlyStep(steps, s0, Handler(1, Read(INITIALIZED)), s1);
    assert IsGreeting(s1.routes.issued, Inbox(s1.traffic, 2)[0]);
    assert Sent(s1.traffic, 2) + [INITIALIZED] == [INITIALIZE, INITIALIZED];
    steps := OrderlyStep(steps, s1, Handler(2, Read(INITIALIZED)),
                         Pair(Writing(INITIALIZED), Writing(INITIALIZED), SENT_BOTH, GREETED_BOTH, [INITIALIZE]));
  }

  /**
   Order is not enough for `initialized`: two clients that have both been greeted
   can both have theirs read before either is marked, and the server is told twice.
   */
  lemma InitializedTwice() returns (steps: seq<Step>, s: MuxState)
    ensures Reaches(steps, s) && OrderlyRun(steps) && Forwarded(s, METHOD_INITIALIZED) == 2
  {
    steps := BothRead();
    var s2 := Pair(Writing(INITIALIZED), Writing(INITIALIZED), SENT_BOTH, GREETED_BOTH, [INITIALIZE]);
    var s3 := Pair(StoringPhase, Writing(INITIALIZED), SENT_BOTH, GREETED_BOTH, [INITIALIZE, INITIALIZED]);
    steps := OrderlyStep(steps, s2, Handler(1, WriteServer(true)), s3);
    s := Pair(StoringPhase, StoringPhase, SENT_BOTH, GREETED_BOTH, [INITIALIZE, INITIALIZED, INITIALIZED]);
    steps := OrderlyStep(steps, s3, Handler(2, WriteServer(true)), s);
    assert s.traffic.toServer == [INITIALIZE] + [INITIALIZED] + [INITIALIZED];
    CountAppend([INITIALIZE], INITIALIZED, METHOD_INITIALIZED);
    CountAppend([INITIALIZE] + [INITIALIZED], INITIALIZED, METHOD_INITIALIZED);
  }
}
