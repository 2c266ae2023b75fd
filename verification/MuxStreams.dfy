/**
 What one client sees (pkg/lsp/daemon_unix.go:394-406, 617-693): the daemon as a
 whole refines, for every client, a machine that knows only this client's own
 requests and the messages of the server.
 */
module MuxStreams {
  import opened Wrappers
  import opened JsonRpc
  import opened Mux
  import opened MuxRouting

  /** One client, served alone: its live requests by daemon id, and the stream it should be sent. */
  datatype View = View(connected: bool, asking: Option<JsonId>, live: map<int, JsonId>, stream: seq<Delivery>)

  const UNSEEN: View := View(false, None, map[], [])

  function ViewStep(v: View, c: nat, step: Step): View {
    match step
    case Accept(x) => if x == c then v.(connected := true) else v
    case Handler(x, does) => if x == c then ViewDo(v, does) else v
    case Reader(Forward(m, target)) => ViewForward(v, c, m, target)
    case Reader(_) => v
    case Shutdown => v
  }

  function ViewDo(v: View, does: HandlerStep): View {
    match does
    case Read(m) => v.(asking := if m.Message? then m.id else None)
    case Register(d) => if v.asking.Some? then v.(live := v.live[d := v.asking.value]) else v
    case Unlist => v.(connected := false)
    case Purge => v.(live := map[])
    case _ => v
  }

  /**
   A response to a live request ends it; a notification reaches whoever is
   connected; a request the one it is routed to.
   */
  function ViewForward(v: View, c: nat, m: Message, target: Option<nat>): View {
    if m.Garbage? then v
    else if IsResponse(m) then
      match ParseResponseID(m.id.value)
      case None => v
      case Some(d) =>
        if d in v.live then v.(live := v.live - {d}, stream := v.stream + [Routed(d, RewriteID(m, v.live[d]))]) else v
    else if IsRequest(m) then (if target == Some(c) then v.(stream := v.stream + [Asked(m)]) else v)
    else if v.connected then v.(stream := v.stream + [Broadcast(m)])
    else v
  }

  function ViewOf(c: nat, steps: seq<Step>): View {
    if steps == [] then UNSEEN else ViewStep(ViewOf(c, steps[..|steps| - 1]), c, steps[|steps| - 1])
  }

  /** The stream without the initialize replies that the daemon answers from its cache. */
  function FromServer(inbox: seq<Delivery>): seq<Delivery> {
    if inbox == [] then []
    else
      var init, last := inbox[..|inbox| - 1], inbox[|inbox| - 1];
      if last.FromCache? then FromServer(init) else FromServer(init) + [last]
  }

  lemma FromServerAppend(inbox: seq<Delivery>, x: Delivery)
    ensures FromServer(inbox + [x]) == FromServer(inbox) + if x.FromCache? then [] else [x]
  {
    assert (inbox + [x])[..|inbox|] == inbox;
  }

  /** What the read loop has yet to write to this client. */
  function InFlight(reader: ReaderState, c: nat): seq<Delivery> {
    if reader.Delivering? && c in reader.targets then [reader.delivery] else []
  }

  function LiveOf(pending: map<int, Pending>, c: nat): map<int, JsonId> {
    map d | d in pending && pending[d].client == c :: pending[d].clientID
  }

  ghost predicate SeesState(s: MuxState, c: nat, v: View) {
    && v.connected == (c in s.table.clients)
    && v.live == LiveOf(s.routes.pending, c)
    && (c in s.table.handlers && s.table.handlers[c].Remapping? ==>
          s.table.handlers[c].request.Message? && v.asking == s.table.handlers[c].request.id)
    && (s.reader.Delivering? ==> !s.reader.delivery.FromCache?)
    && (c !in s.table.handlers ==> v == UNSEEN && Inbox(s.traffic, c) == [] && InFlight(s.reader, c) == [])
  }

  ghost predicate SeesStream(s: MuxState, c: nat, v: View) {
    && FromServer(Inbox(s.traffic, c)) <= v.stream
    && (c in s.table.open ==> FromServer(Inbox(s.traffic, c)) + InFlight(s.reader, c) == v.stream)
  }

  predicate NextIDFree(s: MuxState) {
    s.routes.nextReqID + 1 !in s.routes.pending
  }

  lemma LiveAfterForward(pending: map<int, Pending>, c: nat, d: int)
    requires d in pending
    ensures LiveOf(pending - {d}, c) == LiveOf(pending, c) - {d}
    ensures pending[d].client != c ==> LiveOf(pending - {d}, c) == LiveOf(pending, c)
  {
  }

  lemma LiveAfterRegister(pending: map<int, Pending>, c: nat, d: int, p: Pending)
    requires d !in pending
    ensures LiveOf(pending[d := p], c) == if p.client == c then LiveOf(pending, c)[d := p.clientID]
            else LiveOf(pending, c)
  {
  }

  lemma LiveAfterPurge(pending: map<int, Pending>, c: nat, x: nat)
    ensures LiveOf(WithoutClient(pending, x), c) == if x == c then map[] else LiveOf(pending, c)
  {
  }

  lemma StepKeepsLive(s: MuxState, c: nat, v: View, step: Step)
    requires SeesState(s, c, v) && NextIDFree(s) && Enabled(s, step)
    ensures ViewStep(v, c, step).live == LiveOf(Apply(s, step).routes.pending, c)
  {
    match step
    case Handler(x, does) => HandlerKeepsLive(s, c, v, x, does);
    case Reader(Forward(m, target)) => ForwardKeepsLive(s, c, v, m, target);
    case _ =>
  }

  lemma HandlerKeepsLive(s: MuxState, c: nat, v: View, x: nat, does: HandlerStep)
    requires SeesState(s, c, v) && NextIDFree(s) && Enabled(s, Handler(x, does))
    ensures ViewStep(v, c, Handler(x, does)).live == LiveOf(Apply(s, Handler(x, does)).routes.pending, c)
  {
    match does
    case Register(d) => LiveAfterRegister(s.routes.pending, c, d, Pending(x, s.table.handlers[x].request.id.value));
    case Purge => LiveAfterPurge(s.routes.pending, c, x);
    case _ =>
  }

  lemma ForwardKeepsLive(s: MuxState, c: nat, v: View, m: Message, target: Option<nat>)
    requires v.live == LiveOf(s.routes.pending, c)
    ensures ViewForward(v, c, m, target).live == LiveOf(ForwardOn(s, m, target).routes.pending, c)
  {
    if IsResponse(m) && Answered(s.routes.pending, m).Some? {
      LiveAfterForward(s.routes.pending, c, Answered(s.routes.pending, m).value);
    }
  }

  lemma StepKeepsState(s: MuxState, c: nat, v: View, step: Step)
    requires SeesState(s, c, v) && NextIDFree(s) && TableOk(s.table) && Enabled(s, step)
    ensures SeesState(Apply(s, step), c, ViewStep(v, c, step))
  {
    StepKeepsLive(s, c, v, step);
    StepKeepsUnseen(s, c, v, step);
    match step
    case Handler(x, does) => HandlerKeepsState(s, c, v, x, does);
    case Reader(loop) => ReaderKeepsState(s, c, v, loop);
    case _ =>
  }

  /** What is not about the live requests, when a handler moves. */
  lemma HandlerKeepsState(s: MuxState, c: nat, v: View, x: nat, does: HandlerStep)
    requires SeesState(s, c, v) && TableOk(s.table) && Enabled(s, Handler(x, does))
    ensures var t := Apply(s, Handler(x, does));
            var u := ViewStep(v, c, Handler(x, does));
            && u.connected == (c in t.table.clients)
            && (c in t.table.handlers && t.table.handlers[c].Remapping? ==>
                  t.table.handlers[c].request.Message? && u.asking == t.table.handlers[c].request.id)
            && t.reader == s.reader
  {
  }

  /** Nor does the read loop change what a client asks for, or make out a reply of its own. */
  lemma ReaderKeepsState(s: MuxState, c: nat, v: View, loop: ReaderStep)
    requires SeesState(s, c, v) && CanRead(s, loop)
    ensures var t := ReadOn(s, loop);
            var u := ViewStep(v, c, Reader(loop));
            && u.connected == v.connected && u.asking == v.asking
            && t.table.clients == s.table.clients && t.table.handlers == s.table.handlers
            && (t.reader.Delivering? ==> !t.reader.delivery.FromCache?)
  {
  }

  /** A client that has not come yet is not concerned by anything. */
  lemma StepKeepsUnseen(s: MuxState, c: nat, v: View, step: Step)
    requires SeesState(s, c, v) && TableOk(s.table) && Enabled(s, step)
    ensures var t := Apply(s, step);
            c !in t.table.handlers ==>
              ViewStep(v, c, step) == UNSEEN && Inbox(t.traffic, c) == [] && InFlight(t.reader, c) == []
  {
    StepDelivers(s, step, c);
    if c !in s.table.handlers {
      match step
      case Reader(Forward(m, target)) => UnseenNotAddressed(s, c, m, target);
      case _ =>
    }
  }

  lemma UnseenNotAddressed(s: MuxState, c: nat, m: Message, target: Option<nat>)
    requires TableOk(s.table) && c !in s.table.handlers && CanRead(s, Forward(m, target))
    requires LiveOf(s.routes.pending, c) == map[]
    ensures ViewForward(UNSEEN, c, m, target) == UNSEEN && InFlight(ForwardOn(s, m, target).reader, c) == []
  {
    if IsResponse(m) && Answered(s.routes.pending, m).Some? {
      var d := Answered(s.routes.pending, m).value;
      assert s.routes.pending[d].client == c ==> d in LiveOf(s.routes.pending, c);
    }
  }

  /** What a message of the server adds to the stream is what the read loop then has to write. */
  lemma ForwardAdds(s: MuxState, c: nat, v: View, m: Message, target: Option<nat>)
    requires SeesState(s, c, v) && CanRead(s, Forward(m, target))
    ensures ViewForward(v, c, m, target).stream == v.stream + InFlight(ForwardOn(s, m, target).reader, c)
  {
  }

  lemma StepKeepsStream(s: MuxState, c: nat, v: View, step: Step)
    requires SeesState(s, c, v) && SeesStream(s, c, v) && NextIDFree(s) && TableOk(s.table) && Enabled(s, step)
    ensures SeesStream(Apply(s, step), c, ViewStep(v, c, step))
  {
    match step
    case Handler(x, does) => HandlerKeepsStream(s, c, v, x, does);
    case Reader(loop) => ReaderKeepsStream(s, c, v, loop);
    case _ =>
  }

  lemma ReaderKeepsStream(s: MuxState, c: nat, v: View, loop: ReaderStep)
    requires SeesState(s, c, v) && SeesStream(s, c, v) && CanRead(s, loop)
    ensures SeesStream(ReadOn(s, loop), c, ViewStep(v, c, Reader(loop)))
  {
    match loop
    case Forward(m, target) => ForwardKeepsStream(s, c, v, m, target);
    case WriteClient(x, ok) => WriteKeepsStream(s, c, v, x, ok);
    case _ =>
  }

  /** A handler adds at most a cached reply, which the stream leaves out. */
  lemma HandlerKeepsStream(s: MuxState, c: nat, v: View, x: nat, does: HandlerStep)
    requires SeesStream(s, c, v) && Enabled(s, Handler(x, does))
    ensures SeesStream(Apply(s, Handler(x, does)), c, ViewStep(v, c, Handler(x, does)))
  {
    HandlerDelivers(s, x, does, c);
    var inbox, more := Inbox(s.traffic, c), NewDeliveries(s, Handler(x, does), c);
    if more == [] {
      assert inbox + more == inbox;
    } else {
      assert more == [more[0]];
      FromServerAppend(inbox, more[0]);
    }
  }

  lemma ForwardKeepsStream(s: MuxState, c: nat, v: View, m: Message, target: Option<nat>)
    requires SeesState(s, c, v) && SeesStream(s, c, v) && CanRead(s, Forward(m, target))
    ensures SeesStream(ForwardOn(s, m, target), c, ViewForward(v, c, m, target))
  {
    ForwardAdds(s, c, v, m, target);
    assert FromServer(Inbox(s.traffic, c)) + [] == FromServer(Inbox(s.traffic, c));
  }

  /** What was in flight has arrived, or the connection is closed. */
  lemma WriteKeepsStream(s: MuxState, c: nat, v: View, x: nat, ok: bool)
    requires SeesState(s, c, v) && SeesStream(s, c, v) && CanRead(s, WriteClient(x, ok))
    ensures SeesStream(ReadOn(s, WriteClient(x, ok)), c, v)
  {
    FromServerAppend(Inbox(s.traffic, c), s.reader.delivery);
  }

  lemma {:induction false} ClientStreamHolds(steps: seq<Step>, s: MuxState, c: nat)
    requires Reaches(steps, s)
    ensures SeesState(s, c, ViewOf(c, steps)) && SeesStream(s, c, ViewOf(c, steps))
  {
    if steps != [] {
      var before, last := steps[..|steps| - 1], steps[|steps| - 1];
      var t := RunFrom(INITIAL, before).value;
      ClientStreamHolds(before, t, c);
      RunKeepsRouting(before, t);
      StepKeepsState(t, c, ViewOf(c, before), last);
      StepKeepsStream(t, c, ViewOf(c, before), last);
    }
  }

  /**
   Every client is served as if it were alone: as long as no write to it has
   failed and it has not left, what it has been sent (without cached initialize
   replies), with what is being written to it, is exactly the stream of the
   machine that sees only its own steps and the messages of the server; and
   otherwise it is a first part of that stream.
   */
  lemma EachClientServedAlone(steps: seq<Step>, s: MuxState, c: nat)
    requires Reaches(steps, s)
    ensures c in s.table.open ==> FromServer(Inbox(s.traffic, c)) + InFlight(s.reader, c) == ViewOf(c, steps).stream
    ensures FromServer(Inbox(s.traffic, c)) <= ViewOf(c, steps).stream
  {
    ClientStreamHolds(steps, s, c);
  }

  /** The steps that other clients cannot be told apart by. */
  function OwnSteps(c: nat, steps: seq<Step>): seq<Step> {
    if steps == [] then []
    else
      var init, last := steps[..|steps| - 1], steps[|steps| - 1];
      match last
      case Handler(x, _) => if x == c then OwnSteps(c, init) + [last] else OwnSteps(c, init)
      case _ => OwnSteps(c, init) + [last]
  }

  lemma {:induction false} ViewIgnoresOthers(c: nat, steps: seq<Step>)
    ensures ViewOf(c, OwnSteps(c, steps)) == ViewOf(c, steps)
  {
    if steps != [] {
      var init, last := steps[..|steps| - 1], steps[|steps| - 1];
      ViewIgnoresOthers(c, init);
      assert (OwnSteps(c, init) + [last])[..|OwnSteps(c, init)|] == OwnSteps(c, init);
    }
  }

  /** In two runs that differ only in what other clients' handlers do, a client is sent the same stream. */
  lemma OthersDoNotShow(steps: seq<Step>, s: MuxState, steps': seq<Step>, s': MuxState, c: nat)
    requires Reaches(steps, s) && Reaches(steps', s') && OwnSteps(c, steps) == OwnSteps(c, steps')
    requires c in s.table.open && c in s'.table.open
    ensures FromServer(Inbox(s.traffic, c)) + InFlight(s.reader, c)
            == FromServer(Inbox(s'.traffic, c)) + InFlight(s'.reader, c)
  {
    EachClientServedAlone(steps, s, c);
    EachClientServedAlone(steps', s', c);
    ViewIgnoresOthers(c, steps);
    ViewIgnoresOthers(c, steps');
  }
}
