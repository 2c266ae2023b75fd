/**
 The daemon multiplexer (pkg/lsp/daemon_unix.go) as a transition system: one
 language server shared by clients that come and go. Each client has a handler,
 the server has one read loop, and every step is one lock section, one atomic
 store or one write. The server, the clients and the outcome of every write are
 free.
 */
module Mux {
  import opened Wrappers
  import opened JsonRpc

  const SHUTDOWN_ID: int := 2_000_000_000

  datatype Pending = Pending(client: nat, clientID: JsonId)

  /** Which request a daemon id was given to: the index-th message of a client. */
  datatype Issue = Issue(client: nat, index: int, request: Message)

  datatype Delivery =
    | FromCache(message: Message)
    | Routed(daemonID: int, message: Message)
    | Broadcast(message: Message)
    | Asked(message: Message)

  /**
   Where handleClient is, with its deferred removeClient in three steps: two lock
   sections and the close between them.
   */
  datatype HandlerState =
    | Reading
    | Remapping(request: Message)
    | StoringInitID(daemonID: int, request: Message)
    | Writing(message: Message)
    | StoringPhase
    | Replying(request: Message)
    | Unlisting
    | Closing
    | Purging
    | Gone

  /** Where serverReadLoop is; while Caching it holds initMu. */
  datatype ReaderState =
    | Idle
    | Received(message: Message)
    | Caching(message: Message)
    | Forwarding(message: Message)
    | Delivering(targets: set<nat>, delivery: Delivery)
    | Rejecting(message: Message)
    | Stopped

  /**
   The connected clients, and where each handler is. A connection may be closed
   while its client is still listed, and open when it is listed no more.
   */
  datatype Table = Table(clients: set<nat>, nextID: nat, open: set<nat>, handlers: map<nat, HandlerState>)

  /** The pending requests, and, kept for the record only, every id handed out and every answer taken. */
  datatype Routes = Routes(pending: map<int, Pending>, nextReqID: nat, issued: map<int, Issue>, answered: map<int,
                           Message>)

  datatype Handshake = Handshake(phase: nat, response: Option<Message>, reqID: Option<int>)

  /** What has gone over the wires so far. */
  datatype Traffic = Traffic(sent: map<nat, seq<Message>>, toServer: seq<Message>, fromServer: seq<Message>,
                             inbox: map<nat, seq<Delivery>>)

  datatype MuxState = MuxState(table: Table, routes: Routes, init: Handshake, reader: ReaderState,
                               traffic: Traffic, stopping: bool)

  const INITIAL: MuxState :=
    MuxState(Table({}, 0, {}, map[]), Routes(map[], 0, map[], map[]), Handshake(0, None, None), Idle,
             Traffic(map[], [], [], map[]), false)

  datatype HandlerStep =
    | Read(message: Message)
    | Hangup
    | Register(daemonID: int)
    | StoreInitID
    | WriteServer(ok: bool)
    | StorePhase
    | Reply(ok: bool)
    | Unlist
    | CloseConn
    | Purge

  datatype ReaderStep =
    | ServerSends(message: Message)
    | ServerStops
    | CheckCache
    | StoreOne
    | Forward(message: Message, target: Option<nat>)
    | WriteClient(client: nat, ok: bool)
    | EndDelivery
    | Reject(ok: bool)

  datatype Step = Accept(client: nat) | Handler(client: nat, does: HandlerStep) | Reader(loop: ReaderStep) | Shutdown

  function MethodOf(m: Message): string {
    match m
    case Message(_, name, _) => name
    case Garbage(_) => ""
  }

  function Sent(tr: Traffic, c: nat): seq<Message> {
    if c in tr.sent then tr.sent[c] else []
  }

  function Inbox(tr: Traffic, c: nat): seq<Delivery> {
    if c in tr.inbox then tr.inbox[c] else []
  }

  predicate Enabled(s: MuxState, step: Step) {
    match step
    case Accept(c) => c == s.table.nextID + 1 && !s.stopping
    case Handler(c, does) => c in s.table.handlers && CanDo(s, s.table.handlers[c], does)
    case Reader(loop) => CanRead(s, loop)
    case Shutdown => s.table.clients == {} && !s.stopping
  }

  predicate CanDo(s: MuxState, h: HandlerState, does: HandlerStep) {
    match does
    case Read(_) => h == Reading
    case Hangup => h == Reading
    case Register(d) => h.Remapping? && IsRequest(h.request) && d == s.routes.nextReqID + 1
    case StoreInitID => h.StoringInitID?
    case WriteServer(_) => h.Writing?
    case StorePhase => h == StoringPhase
    case Reply(_) => h.Replying? && !s.reader.Caching?
    case Unlist => h == Unlisting
    case CloseConn => h == Closing
    case Purge => h == Purging
  }

  predicate CanRead(s: MuxState, loop: ReaderStep) {
    match loop
    case ServerSends(_) => s.reader == Idle
    case ServerStops => s.reader == Idle
    case CheckCache => s.reader.Received?
    case StoreOne => s.reader.Caching?
    case Forward(m, target) => s.reader == Forwarding(m) && TargetOk(s.table, m, target)
    case WriteClient(c, _) => s.reader.Delivering? && c in s.reader.targets
    case EndDelivery => s.reader.Delivering? && s.reader.targets == {}
    case Reject(_) => s.reader.Rejecting? && IsRequest(s.reader.message)
  }

  /** Only a request of the server names one client, any one that is connected. */
  predicate TargetOk(t: Table, m: Message, target: Option<nat>) {
    match target
    case Some(c) => IsRequest(m) && c in t.clients
    case None => IsRequest(m) ==> t.clients == {}
  }

  /** What handleClient does next with a message read while this phase was loaded. */
  function Handle(m: Message, phase: nat): HandlerState {
    if MethodOf(m) == METHOD_INITIALIZE && phase >= 1 then Replying(m)
    else if MethodOf(m) == METHOD_INITIALIZED then (if phase >= 2 then Reading else Writing(m))
    else if IsRequest(m) then Remapping(m)
    else Writing(m)
  }

  /** Is this the answer to the initialize request the daemon keeps track of? */
  predicate AnswersInitialize(init: Handshake, m: Message) {
    IsResponse(m) && init.reqID.Some? && m.id == Some(Number(init.reqID.value))
  }

  const SHUTDOWN_REQUEST: Message := Message(Some(Number(SHUTDOWN_ID)), METHOD_SHUTDOWN, "")

  function Rejection(m: Message): Message
    requires IsRequest(m)
  {
    Message(m.id, "", "method not found (no active client)")
  }

  function Moved(t: Table, c: nat, h: HandlerState): Table {
    t.(handlers := t.handlers[c := h])
  }

  function Deliver(tr: Traffic, c: nat, delivery: Delivery): Traffic {
    tr.(inbox := tr.inbox[c := Inbox(tr, c) + [delivery]])
  }

  function ToServer(tr: Traffic, m: Message): Traffic {
    tr.(toServer := tr.toServer + [m])
  }

  function Apply(s: MuxState, step: Step): MuxState
    requires Enabled(s, step)
  {
    match step
    case Accept(c) =>
      s.(table := Table(s.table.clients + {c}, c, s.table.open + {c}, s.table.handlers[c := Reading]))
    case Handler(c, does) => Do(s, c, s.table.handlers[c], does)
    case Reader(loop) => ReadOn(s, loop)
    case Shutdown => s.(stopping := true, traffic := ToServer(s.traffic, SHUTDOWN_REQUEST))
  }

  /** One step of the handler of client c, which is at h. */
  function Do(s: MuxState, c: nat, h: HandlerState, does: HandlerStep): MuxState
    requires CanDo(s, h, does)
  {
    match does
    case Read(m) =>
      s.(table := Moved(s.table, c, Handle(m, s.init.phase)),
         traffic := s.traffic.(sent := s.traffic.sent[c := Sent(s.traffic, c) + [m]]))
    case Hangup => s.(table := Moved(s.table, c, Unlisting))
    case Register(d) =>
      var remapped := RewriteID(h.request, Number(d));
      s.(table := Moved(s.table, c, if MethodOf(h.request) == METHOD_INITIALIZE then StoringInitID(d, remapped)
                                    else Writing(remapped)),
         routes := s.routes.(nextReqID := d, pending := s.routes.pending[d := Pending(c, h.request.id.value)],
                             issued := s.routes.issued[d := Issue(c, |Sent(s.traffic, c)| - 1, h.request)]))
    case StoreInitID =>
      s.(table := Moved(s.table, c, Writing(h.request)), init := s.init.(reqID := Some(h.daemonID)))
    case WriteServer(ok) =>
      if !ok then s.(table := Moved(s.table, c, Unlisting))
      else s.(table := Moved(s.table, c, if MethodOf(h.message) == METHOD_INITIALIZED then StoringPhase else Reading),
              traffic := ToServer(s.traffic, h.message))
    case StorePhase => s.(table := Moved(s.table, c, Reading), init := s.init.(phase := 2))
    case Reply(ok) =>
      if !h.request.Message? || h.request.id.None? || s.init.response.None?
        then s.(table := Moved(s.table, c, Unlisting))
      else if ok && c in s.table.open then
        s.(table := Moved(s.table, c, Reading),
           traffic := Deliver(s.traffic, c, FromCache(RewriteID(s.init.response.value, h.request.id.value))))
      else s.(table := Moved(s.table, c, Unlisting).(open := s.table.open - {c}))
    case Unlist => s.(table := Moved(s.table, c, Closing).(clients := s.table.clients - {c}))
    case CloseConn => s.(table := Moved(s.table, c, Purging).(open := s.table.open - {c}))
    case Purge => s.(table := Moved(s.table, c, Gone),
                     routes := s.routes.(pending := WithoutClient(s.routes.pending, c)))
  }

  /** One step of the read loop. */
  function ReadOn(s: MuxState, loop: ReaderStep): MuxState
    requires CanRead(s, loop)
  {
    match loop
    case ServerSends(m) =>
      s.(reader := Received(m), traffic := s.traffic.(fromServer := s.traffic.fromServer + [m]))
    case ServerStops => s.(reader := Stopped)
    case CheckCache =>
      var m := s.reader.message;
      if s.init.phase == 0 && AnswersInitialize(s.init, m) then
        s.(init := s.init.(response := Some(m)), reader := Caching(m))
      else s.(reader := Forwarding(m))
    case StoreOne => s.(init := s.init.(phase := 1), reader := Forwarding(s.reader.message))
    case Forward(m, target) => ForwardOn(s, m, target)
    case WriteClient(c, ok) =>
      var rest := Delivering(s.reader.targets - {c}, s.reader.delivery);
      if ok && c in s.table.open then s.(reader := rest, traffic := Deliver(s.traffic, c, s.reader.delivery))
      else s.(reader := rest, table := s.table.(open := s.table.open - {c}))
    case EndDelivery => s.(reader := Idle)
    case Reject(ok) =>
      s.(reader := Idle, traffic := if ok then ToServer(s.traffic, Rejection(s.reader.message)) else s.traffic)
  }

  function WithoutClient(pending: map<int, Pending>, c: nat): map<int, Pending> {
    map d | d in pending && pending[d].client != c :: pending[d]
  }

  /** The pending request a response belongs to. */
  function Answered(pending: map<int, Pending>, m: Message): Option<int>
    requires IsResponse(m)
  {
    match ParseResponseID(m.id.value)
    case None => None
    case Some(d) => if d in pending then Some(d) else None
  }

  function ForwardOn(s: MuxState, m: Message, target: Option<nat>): MuxState {
    if m.Garbage? then s.(reader := Idle)
    else if IsResponse(m) then
      match Answered(s.routes.pending, m)
      case None => s.(reader := Idle)
      case Some(d) =>
        var p := s.routes.pending[d];
        s.(routes := s.routes.(pending := s.routes.pending - {d}, answered := s.routes.answered[d := m]),
           reader := Delivering({p.client}, Routed(d, RewriteID(m, p.clientID))))
    else if IsRequest(m) then
      match target
      case None => s.(reader := Rejecting(m))
      case Some(c) => s.(reader := Delivering({c}, Asked(m)))
    else s.(reader := Delivering(s.table.clients, Broadcast(m)))
  }

  /** The state after these steps, when each is enabled in its turn. */
  function RunFrom(s: MuxState, steps: seq<Step>): Option<MuxState> {
    if steps == [] then Some(s)
    else
      match RunFrom(s, steps[..|steps| - 1])
      case None => None
      case Some(t) => if Enabled(t, steps[|steps| - 1]) then Some(Apply(t, steps[|steps| - 1])) else None
  }

  predicate Reaches(steps: seq<Step>, s: MuxState) {
    RunFrom(INITIAL, steps) == Some(s)
  }

  lemma RunStep(s: MuxState, steps: seq<Step>, step: Step)
    requires RunFrom(s, steps).Some? && Enabled(RunFrom(s, steps).value, step)
    ensures RunFrom(s, steps + [step]) == Some(Apply(RunFrom(s, steps).value, step))
  {
    assert (steps + [step])[..|steps|] == steps;
  }

  lemma {:induction false} RunAppend(s: MuxState, a: seq<Step>, b: seq<Step>)
    requires RunFrom(s, a).Some?
    ensures RunFrom(s, a + b) == RunFrom(RunFrom(s, a).value, b)
  {
    if b == [] {
      assert a + b == a;
    } else {
      RunAppend(s, a, b[..|b| - 1]);
      assert (a + b)[..|a + b| - 1] == a + b[..|b| - 1];
    }
  }
}
