/**
 The daemon object (pkg/lsp/daemon_unix.go). Each method is one lock section, or
 one iteration of a loop when nothing else happens in between, and is tied to the
 steps of the transition system, over which the properties are proved.
 */
module Daemon {
  import opened Wrappers
  import opened Sequences
  import opened JsonRpc
  import opened Mux
  import MuxForwarding
  import MuxHandshake

  /** The clients a delivery gets to: those it is meant for whose write succeeds. */
  function Reached(s: MuxState, alive: set<nat>): set<nat>
    requires s.reader.Delivering?
  {
    s.reader.targets * alive * s.table.open
  }

  /** All writes of a delivery, in whatever order. */
  function WriteAll(s: MuxState, alive: set<nat>): MuxState
    requires s.reader.Delivering?
  {
    var reached := Reached(s, alive);
    s.(table := s.table.(open := s.table.open - (s.reader.targets - reached)),
       traffic := s.traffic.(inbox := Appended(s.traffic.inbox, reached, s.reader.delivery)),
       reader := Delivering({}, s.reader.delivery))
  }

  function Appended(inbox: map<nat, seq<Delivery>>, reached: set<nat>, delivery: Delivery): map<nat, seq<Delivery>> {
    map c | c in inbox.Keys + reached ::
      (if c in inbox then inbox[c] else []) + (if c in reached then [delivery] else [])
  }

  lemma AppendedNothing(inbox: map<nat, seq<Delivery>>, delivery: Delivery)
    ensures Appended(inbox, {}, delivery) == inbox
  {
    forall c | c in inbox ensures Appended(inbox, {}, delivery)[c] == inbox[c] {
    }
  }

  lemma AppendedOneMore(inbox: map<nat, seq<Delivery>>, reached: set<nat>, c: nat, delivery: Delivery)
    requires c !in reached
    ensures Appended(inbox[c := (if c in inbox then inbox[c] else []) + [delivery]], reached, delivery)
            == Appended(inbox, reached + {c}, delivery)
  {
    var a := Appended(inbox[c := (if c in inbox then inbox[c] else []) + [delivery]], reached, delivery);
    var b := Appended(inbox, reached + {c}, delivery);
    assert a.Keys == b.Keys;
    forall k | k in a ensures a[k] == b[k] {
    }
  }

  /** Only writes, each of them as alive says. */
  ghost predicate WritesAs(steps: seq<Step>, alive: set<nat>) {
    forall k :: 0 <= k < |steps| && steps[k].Reader? && steps[k].loop.WriteClient? ==>
      (steps[k].loop.ok <==> steps[k].loop.client in alive)
  }

  lemma {:induction false} WriteAllIsARun(s: MuxState, before: seq<Step>, t: MuxState,
                                          alive: set<nat>) returns (steps: seq<Step>)
    requires RunFrom(s, before) == Some(t) && t.reader.Delivering? && WritesAs(before, alive)
    ensures RunFrom(s, steps) == Some(WriteAll(t, alive)) && before <= steps && WritesAs(steps, alive)
    decreases if t.reader.Delivering? then t.reader.targets else {}
  {
    if t.reader.targets == {} {
      AppendedNothing(t.traffic.inbox, t.reader.delivery);
      assert t.table.open - ({} - Reached(t, alive)) == t.table.open && Reached(t, alive) == {};
      steps := before;
    } else {
      var c := SomeMember(t.reader.targets);
      var step := Reader(WriteClient(c, c in alive));
      RunStep(s, before, step);
      var t' := Apply(t, step);
      steps := WriteAllIsARun(s, before + [step], t', alive);
      WriteOneOfAll(t, c, alive);
    }
  }

  lemma WriteOneOfAll(t: MuxState, c: nat, alive: set<nat>)
    requires t.reader.Delivering? && c in t.reader.targets
    ensures WriteAll(Apply(t, Reader(WriteClient(c, c in alive))), alive) == WriteAll(t, alive)
  {
    var t' := Apply(t, Reader(WriteClient(c, c in alive)));
    if c in Reached(t, alive) {
      assert Reached(t', alive) + {c} == Reached(t, alive);
      AppendedOneMore(t.traffic.inbox, Reached(t', alive), c, t.reader.delivery);
    } else {
      assert Reached(t', alive) == Reached(t, alive);
    }
    assert t'.table.open - (t'.reader.targets - Reached(t', alive))
           == t.table.open - (t.reader.targets - Reached(t, alive));
  }

  class DaemonRuntime {
    var clients: set<nat>
    var nextClientID: nat
    var open: set<nat>
    var pending: map<int, Pending>
    var nextReqID: nat
    var initPhase: nat
    var initResponse: Option<Message>
    var initReqID: Option<int>
    var stopping: bool
    // the wires
    var toServer: seq<Message>
    var inbox: map<nat, seq<Delivery>>
    // where the loops are
    var handlers: map<nat, HandlerState>
    var reader: ReaderState
    // what has been
    ghost var issued: map<int, Issue>
    ghost var answered: map<int, Message>
    ghost var sent: map<nat, seq<Message>>
    ghost var fromServer: seq<Message>

    ghost function State(): MuxState
      reads this
    {
      MuxState(Table(clients, nextClientID, open, handlers), Routes(pending, nextReqID, issued, answered),
               Handshake(initPhase, initResponse, initReqID), reader, Traffic(sent, toServer, fromServer, inbox),
                 stopping)
    }

    constructor ()
      ensures State() == INITIAL
    {
      clients, nextClientID, open, pending, nextReqID := {}, 0, {}, map[], 0;
      initPhase, initResponse, initReqID, stopping := 0, None, None, false;
      toServer, inbox := [], map[];
      handlers, reader, issued, answered, sent, fromServer := map[], Idle, map[], map[], map[], [];
    }

    method AddClient() returns (c: nat)
      requires !stopping
      modifies this
      ensures Enabled(old(State()), Accept(c)) && State() == Apply(old(State()), Accept(c))
    {
      nextClientID := nextClientID + 1;
      c := nextClientID;
      clients := clients + {c};
      open := open + {c};
      handlers := handlers[c := Reading];
    }

    /** The deferred end of handleClient: unlist, close, then purge what is pending. */
    method RemoveClient(c: nat)
      requires c in handlers && handlers[c] == Unlisting
      modifies this
      ensures RunFrom(old(State()), Leaving(c)) == Some(State())
      ensures handlers == old(handlers)[c := Gone] && c !in clients && c !in open
      ensures forall d :: d in pending <==> d in old(pending) && old(pending)[d].client != c
      ensures sent == old(sent) && toServer == old(toServer) && nextReqID == old(nextReqID)
    {
      ghost var s := State();
      Unlist(c);
      ghost var unlisted := State();
      CloseConn(c);
      ghost var closed := State();
      PurgeClient(c);
      RunOfThree(s, Handler(c, HandlerStep.Unlist), unlisted, Handler(c, HandlerStep.CloseConn), closed,
                 Handler(c, Purge), State());
    }

    method Unlist(c: nat)
      requires c in handlers && handlers[c] == Unlisting
      modifies this`clients, this`handlers
      ensures State() == Apply(old(State()), Handler(c, HandlerStep.Unlist))
      ensures handlers == old(handlers)[c := Closing] && c !in clients
    {
      clients := clients - {c};
      handlers := handlers[c := Closing];
    }

    method CloseConn(c: nat)
      requires c in handlers && handlers[c] == Closing
      modifies this`open, this`handlers
      ensures State() == Apply(old(State()), Handler(c, HandlerStep.CloseConn))
      ensures handlers == old(handlers)[c := Purging] && c !in open
    {
      open := open - {c};
      handlers := handlers[c := Purging];
    }

    method PurgeClient(c: nat)
      requires c in handlers && handlers[c] == Purging
      modifies this`pending, this`handlers
      ensures State() == Apply(old(State()), Handler(c, Purge))
      ensures pending == WithoutClient(old(pending), c) && handlers == old(handlers)[c := Gone]
    {
      PurgePending(c);
      handlers := handlers[c := Gone];
    }

    method PurgePending(c: nat)
      modifies this`pending
      ensures pending == WithoutClient(old(pending), c)
    {
      var ids := pending.Keys;
      while ids != {}
        invariant ids <= old(pending).Keys
        invariant forall d :: d in pending <==> d in old(pending) && (d in ids || old(pending)[d].client != c)
        invariant forall d :: d in pending ==> pending[d] == old(pending)[d]
        decreases ids
      {
        ghost var some := SomeMember(ids);
        var d :| d in ids;
        if pending[d].client == c {
          pending := pending - {d};
        }
        ids := ids - {d};
      }
      forall d: int ensures d in pending <==> d in WithoutClient(old(pending), c) {
      }
      forall d: int | d in pending ensures pending[d] == WithoutClient(old(pending), c)[d] {
      }
      SameMap(pending, WithoutClient(old(pending), c));
    }

    method RemapRequest(c: nat, request: Message) returns (remapped: Message)
      requires c in handlers && handlers[c] == Remapping(request) && IsRequest(request)
      modifies this`nextReqID, this`pending, this`issued, this`handlers
      ensures Enabled(old(State()), Handler(c, Register(old(nextReqID) + 1)))
      ensures State() == Apply(old(State()), Handler(c, Register(old(nextReqID) + 1)))
      ensures nextReqID == old(nextReqID) + 1 && pending == old(pending)[nextReqID := Pending(c, request.id.value)]
      ensures remapped == RewriteID(request, Number(nextReqID))
    {
      RegisterStep(State(), c, request);
      ghost var t := Apply(State(), Handler(c, Register(nextReqID + 1)));
      nextReqID := nextReqID + 1;
      pending := pending[nextReqID := Pending(c, request.id.value)];
      remapped := RewriteID(request, Number(nextReqID));
      issued := issued[nextReqID := Issue(c, |Sent(old(State()).traffic, c)| - 1, request)];
      handlers := handlers[c := if MethodOf(request) == METHOD_INITIALIZE then StoringInitID(nextReqID, remapped)
                           else Writing(remapped)];
      assert handlers == t.table.handlers && Routes(pending, nextReqID, issued, answered) == t.routes;
    }

    method WriteToServer(c: nat, message: Message, ok: bool)
      requires c in handlers && handlers[c] == Writing(message)
      modifies this`toServer, this`handlers
      ensures State() == Apply(old(State()), Handler(c, WriteServer(ok)))
      ensures toServer == old(toServer) + if ok then [message] else []
    {
      if ok {
        toServer := toServer + [message];
        handlers := handlers[c := if MethodOf(message) == METHOD_INITIALIZED then StoringPhase else Reading];
      } else {
        handlers := handlers[c := Unlisting];
      }
    }

    /** Answers initialize from the cache; an error makes the handler leave. */
    method ReplyInitializeFromCache(c: nat, request: Message, ok: bool) returns (replied: bool)
      requires c in handlers && handlers[c] == Replying(request) && !reader.Caching?
      modifies this`open, this`inbox, this`handlers
      ensures State() == Apply(old(State()), Handler(c, Reply(ok)))
      ensures replied <==> handlers[c] == Reading
    {
      if !request.Message? || request.id.None? || initResponse.None? {
        handlers := handlers[c := Unlisting];
        return false;
      }
      var rewritten := RewriteID(initResponse.value, request.id.value);
      if ok && c in open {
        inbox := inbox[c := (if c in inbox then inbox[c] else []) + [FromCache(rewritten)]];
        handlers := handlers[c := Reading];
        return true;
      }
      open := open - {c};
      handlers := handlers[c := Unlisting];
      return false;
    }

    /** cacheInitializeResponse: the check and the cache, then the store of phase 1. */
    method CacheInitializeResponse(message: Message) returns (ghost steps: seq<Step>)
      requires reader == Received(message)
      modifies this
      ensures RunFrom(old(State()), steps) == Some(State()) && reader == Forwarding(message) && |steps| <= 2
      ensures clients == old(clients)
      ensures forall k :: 0 <= k < |steps| ==> steps[k] == Reader(CheckCache) || steps[k] == Reader(StoreOne)
      ensures fromServer == old(fromServer)
    {
      OneStep(State(), Reader(CheckCache));
      steps := [Reader(CheckCache)];
      var cached := CacheAnswer(message);
      if cached {
        RunStep(old(State()), steps, Reader(StoreOne));
        steps := steps + [Reader(StoreOne)];
        StorePhaseOne(message);
      }
    }

    method CacheAnswer(message: Message) returns (cached: bool)
      requires reader == Received(message)
      modifies this`initResponse, this`reader
      ensures State() == Apply(old(State()), Reader(CheckCache))
      ensures reader == if cached then Caching(message) else Forwarding(message)
    {
      cached := initPhase == 0 && IsResponse(message) && initReqID.Some? && message.id == Some(Number(initReqID.value));
      if cached {
        initResponse := Some(message);
        reader := Caching(message);
      } else {
        reader := Forwarding(message);
      }
    }

    method StorePhaseOne(message: Message)
      requires reader == Caching(message)
      modifies this`initPhase, this`reader
      ensures State() == Apply(old(State()), Reader(StoreOne)) && reader == Forwarding(message)
    {
      initPhase := 1;
      reader := Forwarding(message);
    }

    /** The response leaves the pending table, and is then written to the client that asked. */
    method RouteResponse(message: Message)
      requires reader == Forwarding(message) && IsResponse(message)
      modifies this
      ensures State() == Apply(old(State()), Reader(Forward(message, None)))
      ensures fromServer == old(fromServer)
    {
      var id := ParseResponseID(message.id.value);
      if id.None? || id.value !in pending {
        reader := Idle;
        return;
      }
      var p := pending[id.value];
      pending := pending - {id.value};
      answered := answered[id.value := message];
      reader := Delivering({p.client}, Routed(id.value, RewriteID(message, p.clientID)));
    }

    method WriteToClient(c: nat, delivery: Delivery, ok: bool)
      modifies this`inbox, this`open
      ensures if ok && c in old(open) then inbox == Appended(old(inbox), {c}, delivery) && open == old(open)
              else inbox == old(inbox) && open == old(open) - {c}
    {
      if ok && c in open {
        AppendedNothing(inbox[c := (if c in inbox then inbox[c] else []) + [delivery]], delivery);
        AppendedOneMore(inbox, {}, c, delivery);
        assert {} + {c} == {c};
        inbox := inbox[c := (if c in inbox then inbox[c] else []) + [delivery]];
      } else {
        open := open - {c};
      }
    }

    /**
     forwardToClient: a response by the pending table, a request to one client or
     none, anything else to everybody.
     */
    method ForwardToClient(message: Message, target: Option<nat>)
      requires reader == Forwarding(message) && TargetOk(State().table, message, target)
      modifies this
      ensures State() == Apply(old(State()), Reader(Forward(message, target)))
      ensures reader == Idle || reader.Delivering? || (reader == Rejecting(message) && IsRequest(message))
      ensures fromServer == old(fromServer)
    {
      if message.Garbage? {
        reader := Idle;
      } else if IsResponse(message) {
        RouteResponse(message);
      } else if IsRequest(message) {
        if target.None? {
          reader := Rejecting(message);
        } else {
          reader := Delivering({target.value}, Asked(message));
        }
      } else {
        reader := Delivering(clients, Broadcast(message));
      }
    }

    /** The writes of one delivery, one client after the other. */
    method WriteToClients(targets: set<nat>, delivery: Delivery, alive: set<nat>)
      requires reader == Delivering(targets, delivery)
      modifies this`open, this`inbox, this`reader
      ensures State() == WriteAll(old(State()), alive)
    {
      var snapshot := targets;
      AppendedNothing(inbox, delivery);
      while snapshot != {}
        invariant snapshot <= targets
        invariant WrittenTo(old(open), old(inbox), alive, targets - snapshot, delivery, open, inbox)
        modifies this`open, this`inbox
        decreases snapshot
      {
        ghost var some := SomeMember(snapshot);
        var c :| c in snapshot;
        WrittenOneMore(old(open), old(inbox), alive, targets - snapshot, delivery, open, inbox, c);
        assert targets - (snapshot - {c}) == (targets - snapshot) + {c};
        WriteToClient(c, delivery, c in alive);
        snapshot := snapshot - {c};
      }
      assert targets - {} == targets;
      reader := Delivering({}, delivery);
    }

    method StoreInitID(c: nat, remapped: Message)
      requires c in handlers && handlers[c] == HandlerState.StoringInitID(nextReqID, remapped)
      modifies this`initReqID, this`handlers
      ensures State() == Apply(old(State()), Handler(c, HandlerStep.StoreInitID))
      ensures handlers == old(handlers)[c := Writing(remapped)]
    {
      initReqID := Some(nextReqID);
      handlers := handlers[c := Writing(remapped)];
    }

    method MarkInitialized(c: nat)
      requires c in handlers && handlers[c] == StoringPhase
      modifies this`initPhase, this`handlers
      ensures State() == Apply(old(State()), Handler(c, StorePhase)) && handlers == old(handlers)[c := Reading]
    {
      initPhase := 2;
      handlers := handlers[c := Reading];
    }

    /** Remaps a request, and notes the id of an initialize. */
    method TakeRequest(c: nat, request: Message) returns (remapped: Message, ghost steps: seq<Step>)
      requires c in handlers && handlers[c] == Remapping(request) && IsRequest(request)
      modifies this`nextReqID, this`pending, this`issued, this`initReqID, this`handlers
      ensures RunFrom(old(State()), steps) == Some(State()) && StepsOf(c, steps)
      ensures handlers == old(handlers)[c := Writing(remapped)] && nextReqID == old(nextReqID) + 1
      ensures remapped == Message(Some(Number(nextReqID)), request.methodName, request.body)
    {
      ghost var register := Handler(c, Register(nextReqID + 1));
      OneStep(State(), register);
      remapped := RemapRequest(c, request);
      steps := [register];
      if MethodOf(request) == METHOD_INITIALIZE {
        RunStep(old(State()), steps, Handler(c, HandlerStep.StoreInitID));
        StoreInitID(c, remapped);
        steps := steps + [Handler(c, HandlerStep.StoreInitID)];
      }
    }

    /** Writes a message to the server as it is, and marks the daemon initialized after `initialized`. */
    method SendMessage(c: nat, message: Message, ok: bool) returns (ghost steps: seq<Step>)
      requires c in handlers && handlers[c] == Writing(message)
      modifies this`toServer, this`initPhase, this`handlers
      ensures RunFrom(old(State()), steps) == Some(State()) && StepsOf(c, steps)
      ensures handlers == old(handlers)[c := if ok then Reading else Unlisting]
      ensures toServer == old(toServer) + if ok then [message] else []
      ensures initPhase == if ok && MethodOf(message) == METHOD_INITIALIZED then 2 else old(initPhase)
    {
      OneStep(State(), Handler(c, WriteServer(ok)));
      steps := [Handler(c, WriteServer(ok))];
      WriteToServer(c, message, ok);
      if ok && MethodOf(message) == METHOD_INITIALIZED {
        RunStep(old(State()), steps, Handler(c, StorePhase));
        MarkInitialized(c);
        steps := steps + [Handler(c, StorePhase)];
      }
    }

    method Receive(c: nat, message: Message)
      requires c in handlers && handlers[c] == Reading
      modifies this`handlers, this`sent
      ensures State() == Apply(old(State()), Handler(c, Read(message)))
      ensures handlers == old(handlers)[c := Handle(message, initPhase)]
      ensures sent == old(sent)[c := Sent(old(State()).traffic, c) + [message]]
    {
      handlers := handlers[c := Handle(message, initPhase)];
      sent := sent[c := Sent(State().traffic, c) + [message]];
    }

    /** Sends a request under the daemon's next id. */
    method SendRequest(c: nat, request: Message, ok: bool) returns (ghost steps: seq<Step>)
      requires c in handlers && handlers[c] == Remapping(request) && IsRequest(request)
      modifies this
      ensures RunFrom(old(State()), steps) == Some(State()) && StepsOf(c, steps)
      ensures handlers == old(handlers)[c := if ok then Reading else Unlisting]
      ensures toServer == old(toServer) + if ok then ToldFrom(Remapping(request), nextReqID) else []
      ensures sent == old(sent)
    {
      var remapped;
      remapped, steps := TakeRequest(c, request);
      ghost var more := SendMessage(c, remapped, ok);
      RunAppend(old(State()), steps, more);
      steps := steps + more;
    }

    /** Does with a message what its method and the phase call for. */
    method Act(c: nat, ok: bool) returns (ghost steps: seq<Step>, stays: bool)
      requires c in handlers && !reader.Caching?
      requires match handlers[c]
               case Remapping(request) => IsRequest(request)
               case Reading => true
               case Replying(_) => true
               case Writing(_) => true
               case _ => false
      modifies this
      ensures RunFrom(old(State()), steps) == Some(State()) && StepsOf(c, steps)
      ensures c in handlers && handlers[c] == if stays then Reading else Unlisting
      ensures !old(handlers)[c].Replying? ==> (stays <==> ok || old(handlers)[c] == Reading)
      ensures sent == old(sent)
      ensures toServer == old(toServer) + if ok then ToldFrom(old(handlers)[c], nextReqID) else []
    {
      match handlers[c] {
        case Replying(request) =>
          OneStep(State(), Handler(c, Reply(ok)));
          steps := [Handler(c, Reply(ok))];
          stays := ReplyInitializeFromCache(c, request, ok);
        case Remapping(request) =>
          steps := SendRequest(c, request, ok);
          stays := ok;
        case Writing(message) =>
          steps := SendMessage(c, message, ok);
          stays := ok;
        case Reading =>
          steps := [];
          stays := true;
      }
    }

    /** Reads a message and does with it what there is to do. */
    method ReadAndAct(c: nat, message: Message, ok: bool) returns (ghost steps: seq<Step>, stays: bool)
      requires c in handlers && handlers[c] == Reading && !reader.Caching?
      modifies this
      ensures RunFrom(old(State()), steps) == Some(State())
      ensures StepsOf(c, steps) && steps != [] && steps[0] == Handler(c, Read(message))
      ensures c in handlers && handlers[c] == if stays then Reading else Unlisting
      ensures var next := Handle(message, old(initPhase)); !next.Replying? ==> (stays <==> ok || next == Reading)
      ensures sent == old(sent)[c := Sent(old(State()).traffic, c) + [message]]
      ensures toServer == old(toServer) + if ok then ToldFrom(Handle(message, old(initPhase)), nextReqID) else []
    {
      OneStep(State(), Handler(c, Read(message)));
      steps := [Handler(c, Read(message))];
      Receive(c, message);
      ghost var acts;
      acts, stays := Act(c, ok);
      RunAppend(old(State()), steps, acts);
      steps := steps + acts;
    }

    /** One iteration of handleClient, and its deferred end when the handler leaves. */
    method HandleMessage(c: nat, message: Message, ok: bool) returns (ghost steps: seq<Step>, stays: bool)
      requires c in handlers && handlers[c] == Reading && !reader.Caching?
      modifies this
      ensures RunFrom(old(State()), steps) == Some(State())
      ensures StepsOf(c, steps) && steps != [] && steps[0] == Handler(c, Read(message))
      ensures c in handlers && handlers[c] == if stays then Reading else Gone
      ensures var next := Handle(message, old(initPhase)); !next.Replying? ==> (stays <==> ok || next == Reading)
      ensures sent == old(sent)[c := Sent(old(State()).traffic, c) + [message]]
      ensures if ok && MuxHandshake.GoesToServer(MethodOf(message), old(initPhase))
              then toServer == old(toServer) + [PassedOn(message, nextReqID)]
              else toServer == old(toServer)
    {
      steps, stays := ReadAndAct(c, message, ok);
      ToldWhenRead(message, old(initPhase), nextReqID);
      if !stays {
        RunAppend(old(State()), steps, Leaving(c));
        RemoveClient(c);
        steps := steps + Leaving(c);
      }
    }

    /** The read loop takes a message and caches it if it answers initialize. */
    method Hear(message: Message) returns (ghost steps: seq<Step>)
      requires reader == Idle
      modifies this
      ensures RunFrom(old(State()), steps) == Some(State()) && reader == Forwarding(message)
      ensures clients == old(clients) && steps != [] && steps[0] == Reader(ServerSends(message)) && NoWrites(steps)
      ensures fromServer == old(fromServer) + [message]
    {
      OneStep(State(), Reader(ServerSends(message)));
      steps := [Reader(ServerSends(message))];
      fromServer := fromServer + [message];
      reader := Received(message);
      ghost var caching := CacheInitializeResponse(message);
      RunAppend(old(State()), steps, caching);
      steps := steps + caching;
    }

    /** The writes that a forwarded message calls for. */
    method Finish(alive: set<nat>, ok: bool) returns (ghost steps: seq<Step>)
      requires reader == Idle || reader.Delivering? || (reader.Rejecting? && IsRequest(reader.message))
      modifies this
      ensures RunFrom(old(State()), steps) == Some(State()) && reader == Idle && WritesAs(steps, alive)
      ensures fromServer == old(fromServer)
    {
      steps := [];
      match reader {
        case Delivering(targets, delivery) => steps := FinishDelivery(targets, delivery, alive);
        case Rejecting(message) =>
          OneStep(State(), Reader(Reject(ok)));
          steps := [Reader(Reject(ok))];
          RejectRequest(message, ok);
        case Idle =>
      }
    }

    method FinishDelivery(targets: set<nat>, delivery: Delivery, alive: set<nat>) returns (ghost steps: seq<Step>)
      requires reader == Delivering(targets, delivery)
      modifies this
      ensures RunFrom(old(State()), steps) == Some(State()) && reader == Idle && WritesAs(steps, alive)
      ensures fromServer == old(fromServer)
    {
      steps := WriteAllIsARun(State(), [], State(), alive);
      WriteToClients(targets, delivery, alive);
      RunStep(old(State()), steps, Reader(EndDelivery));
      steps := steps + [Reader(EndDelivery)];
      reader := Idle;
    }

    method RejectRequest(message: Message, ok: bool)
      requires reader == Rejecting(message) && IsRequest(message)
      modifies this`toServer, this`reader
      ensures State() == Apply(old(State()), Reader(Reject(ok))) && reader == Idle
    {
      if ok {
        toServer := toServer + [Rejection(message)];
      }
      reader := Idle;
    }

    /**
     One iteration of serverReadLoop: cache, route, ask or broadcast; target is the
     client asked when there is one.
     */
    method ServerReadOnce(message: Message, target: Option<nat>, alive: set<nat>,
                          ok: bool) returns (ghost steps: seq<Step>)
      requires reader == Idle && TargetOk(State().table, message, target)
      modifies this
      ensures RunFrom(old(State()), steps) == Some(State()) && reader == Idle
      ensures steps != [] && steps[0] == Reader(ServerSends(message)) && WritesAs(steps, alive)
      ensures Reader(Forward(message, target)) in steps
      ensures fromServer == old(fromServer) + [message]
    {
      steps := Hear(message);
      RunStep(old(State()), steps, Reader(Forward(message, target)));
      ForwardToClient(message, target);
      steps := steps + [Reader(Forward(message, target))];
      ghost var writes := Finish(alive, ok);
      RunAppend(old(State()), steps, writes);
      steps := steps + writes;
    }
  }

  /** What a handler with a message in hand is to tell the server. */
  function ToldFrom(h: HandlerState, daemonID: int): seq<Message> {
    match h
    case Remapping(Message(_, name, body)) => [Message(Some(Number(daemonID)), name, body)]
    case Writing(message) => [message]
    case _ => []
  }

  lemma ToldWhenRead(message: Message, phase: nat, daemonID: int)
    ensures ToldFrom(Handle(message, phase), daemonID) ==
              if MuxHandshake.GoesToServer(MethodOf(message), phase) then [PassedOn(message, daemonID)] else []
  {
  }

  /** What the server is to be told: a request under the daemon's id, anything else as it is. */
  function PassedOn(said: Message, daemonID: int): Message {
    if MuxForwarding.GetsDaemonID(said) then Message(Some(Number(daemonID)), said.methodName, said.body) else said
  }

  /** The last steps of a handler: unlist the client, close its connection, purge what it has pending. */
  function Leaving(c: nat): seq<Step> {
    [Handler(c, HandlerStep.Unlist), Handler(c, HandlerStep.CloseConn), Handler(c, Purge)]
  }

  lemma RunOfThree(s: MuxState, a: Step, t: MuxState, b: Step, u: MuxState, c: Step, v: MuxState)
    requires Enabled(s, a) && Apply(s, a) == t && Enabled(t, b) && Apply(t, b) == u && Enabled(u, c) && Apply(u, c) == v
    ensures RunFrom(s, [a, b, c]) == Some(v)
  {
    OneStep(s, a);
    RunStep(s, [a], b);
    RunStep(s, [a] + [b], c);
    assert [a] + [b] + [c] == [a, b, c];
  }

  lemma RegisterStep(s: MuxState, c: nat, request: Message)
    requires c in s.table.handlers && s.table.handlers[c] == Remapping(request) && IsRequest(request)
    ensures var d := s.routes.nextReqID + 1;
            var remapped := RewriteID(request, Number(d));
            var h := if MethodOf(request) == METHOD_INITIALIZE then StoringInitID(d, remapped) else Writing(remapped);
            && Enabled(s, Handler(c, Register(d)))
            && Apply(s, Handler(c, Register(d))) ==
                 s.(table := Moved(s.table, c, h),
                    routes := s.routes.(nextReqID := d, pending := s.routes.pending[d := Pending(c, request.id.value)],
                                        issued := s.routes.issued[d := Issue(c, |Sent(s.traffic, c)| - 1, request)]))
  {
  }

  lemma OneStep(s: MuxState, step: Step)
    requires Enabled(s, step)
    ensures RunFrom(s, [step]) == Some(Apply(s, step))
  {
    assert [step][..0] == [];
  }

  /** All of them are steps of this client's handler. */
  ghost predicate StepsOf(c: nat, steps: seq<Step>) {
    forall k :: 0 <= k < |steps| ==> steps[k].Handler? && steps[k].client == c
  }

  ghost predicate NoWrites(steps: seq<Step>) {
    forall k :: 0 <= k < |steps| ==> !(steps[k].Reader? && steps[k].loop.WriteClient?)
  }

  /** What the connections and inboxes have become when these clients have been written to. */
  ghost predicate WrittenTo(open: set<nat>, inbox: map<nat, seq<Delivery>>, alive: set<nat>, done: set<nat>,
                            delivery: Delivery, open': set<nat>, inbox': map<nat, seq<Delivery>>) {
    open' == open - (done - done * alive * open) && inbox' == Appended(inbox, done * alive * open, delivery)
  }

  lemma WrittenOneMore(open: set<nat>, inbox: map<nat, seq<Delivery>>, alive: set<nat>, done: set<nat>,
                       delivery: Delivery, open': set<nat>, inbox': map<nat, seq<Delivery>>, c: nat)
    requires WrittenTo(open, inbox, alive, done, delivery, open', inbox') && c !in done
    ensures if c in alive && c in open'
            then WrittenTo(open, inbox, alive, done + {c}, delivery, open', Appended(inbox', {c}, delivery))
            else WrittenTo(open, inbox, alive, done + {c}, delivery, open' - {c}, inbox')
  {
    var reached := done * alive * open;
    if c in alive && c in open {
      assert (done + {c}) * alive * open == reached + {c};
      AppendedTwice(inbox, reached, c, delivery);
    } else {
      assert (done + {c}) * alive * open == reached;
    }
  }

  lemma AppendedTwice(inbox: map<nat, seq<Delivery>>, reached: set<nat>, c: nat, delivery: Delivery)
    requires c !in reached
    ensures Appended(Appended(inbox, reached, delivery), {c}, delivery) == Appended(inbox, reached + {c}, delivery)
  {
    var a, b := Appended(Appended(inbox, reached, delivery), {c}, delivery), Appended(inbox, reached + {c}, delivery);
    assert a.Keys == b.Keys;
    forall k | k in a ensures a[k] == b[k] {
    }
  }
}
