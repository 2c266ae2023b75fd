/**
 Routing (pkg/lsp/daemon_unix.go:598-664, 742-757): in every run, whatever the
 server does, a response reaches only the client that asked, under the id that
 client used, and no request is answered twice.
 */
module MuxRouting {
  import opened Wrappers
  import opened JsonRpc
  import opened Mux

  /** Client ids are handed out in order, and a handler that leaves takes its client off the list and then closes it. */
  ghost predicate TableOk(t: Table) {
    && (forall c: nat :: c in t.handlers <==> 1 <= c <= t.nextID)
    && t.open <= t.handlers.Keys && t.clients <= t.handlers.Keys
    && (forall c :: c in t.handlers && IsUnlisted(t.handlers[c]) ==>
        c !in t.clients && (t.handlers[c].Closing? || c !in t.open))
  }

  predicate IsUnlisted(h: HandlerState) {
    h.Closing? || h.Purging? || h.Gone?
  }

  predicate IsGone(t: Table, c: nat) {
    c in t.handlers && t.handlers[c].Gone?
  }

  predicate IsIssue(tr: Traffic, i: Issue) {
    && 0 <= i.index < |Sent(tr, i.client)| && Sent(tr, i.client)[i.index] == i.request
    && IsRequest(i.request)
  }

  /** Daemon ids are numbered from one, each given to another request that its client really sent. */
  ghost predicate IssuedOk(issued: map<int, Issue>, count: nat, tr: Traffic) {
    && (forall d :: d in issued <==> 1 <= d <= count)
    && (forall d :: d in issued ==> IsIssue(tr, issued[d]))
    && (forall d, e :: d in issued && e in issued && d != e ==> OtherRequest(issued[d], issued[e]))
  }

  predicate OtherRequest(a: Issue, b: Issue) {
    a.client == b.client ==> a.index != b.index
  }

  /** A request about to be remapped is the last thing its client sent, and has no daemon id yet. */
  ghost predicate RemappingOk(t: Table, issued: map<int, Issue>, tr: Traffic) {
    forall c :: c in t.handlers && t.handlers[c].Remapping? ==>
      IsLast(tr, c, t.handlers[c].request) && Unissued(issued, tr, c)
  }

  predicate IsLast(tr: Traffic, c: nat, m: Message) {
    Sent(tr, c) != [] && Sent(tr, c)[|Sent(tr, c)| - 1] == m
  }

  ghost predicate Unissued(issued: map<int, Issue>, tr: Traffic, c: nat) {
    forall d :: d in issued && issued[d].client == c ==> issued[d].index < |Sent(tr, c)| - 1
  }

  ghost predicate PendingOk(t: Table, routes: Routes) {
    forall d :: d in routes.pending ==> PendingEntryOk(t, routes, d)
  }

  /** The entry is for the request this id was given to, which is not answered yet, and its client has not left. */
  predicate PendingEntryOk(t: Table, routes: Routes, d: int) {
    && d in routes.pending && d in routes.issued && d !in routes.answered && IsRequest(routes.issued[d].request)
    && routes.pending[d] == Pending(routes.issued[d].client, routes.issued[d].request.id.value)
    && !IsGone(t, routes.pending[d].client)
  }

  predicate IsAnswer(tr: Traffic, d: int, m: Message) {
    m in tr.fromServer && IsResponse(m) && ParseResponseID(m.id.value) == Some(d)
  }

  ghost predicate AnsweredOk(routes: Routes, tr: Traffic) {
    forall d :: d in routes.answered ==> d in routes.issued && IsAnswer(tr, d, routes.answered[d])
  }

  /** The read loop works on a message of the server. */
  predicate ReceivedOk(reader: ReaderState, tr: Traffic) {
    match reader
    case Received(m) => m in tr.fromServer
    case Caching(m) => m in tr.fromServer
    case Forwarding(m) => m in tr.fromServer
    case _ => true
  }

  /** A delivery that, if it answers a request, answers one of this client. */
  predicate OwnAnswer(routes: Routes, c: nat, delivery: Delivery) {
    delivery.Routed? ==>
      var d := delivery.daemonID;
      && d in routes.issued && d in routes.answered && routes.issued[d].client == c
         && IsRequest(routes.issued[d].request)
      && delivery.message == RewriteID(routes.answered[d], routes.issued[d].request.id.value)
  }

  ghost predicate DistinctAnswers(inbox: seq<Delivery>) {
    forall i, j :: 0 <= i < j < |inbox| && inbox[i].Routed? && inbox[j].Routed? ==>
      inbox[i].daemonID != inbox[j].daemonID
  }

  ghost predicate OwnInbox(routes: Routes, c: nat, inbox: seq<Delivery>) {
    DistinctAnswers(inbox) && forall i :: 0 <= i < |inbox| ==> OwnAnswer(routes, c, inbox[i])
  }

  ghost predicate InboxesOk(routes: Routes, tr: Traffic) {
    forall c: nat :: OwnInbox(routes, c, Inbox(tr, c))
  }

  ghost predicate Undelivered(inbox: seq<Delivery>, delivery: Delivery) {
    forall i :: 0 <= i < |inbox| && inbox[i].Routed? && delivery.Routed? ==> inbox[i].daemonID != delivery.daemonID
  }

  /** What the read loop is delivering is for its targets, and new to them. */
  ghost predicate DeliveringOk(reader: ReaderState, routes: Routes, tr: Traffic) {
    reader.Delivering? ==> forall c :: c in reader.targets ==>
      OwnAnswer(routes, c, reader.delivery) && Undelivered(Inbox(tr, c), reader.delivery)
  }

  ghost predicate Routing(s: MuxState) {
    && TableOk(s.table) && IssuedOk(s.routes.issued, s.routes.nextReqID, s.traffic)
       && RemappingOk(s.table, s.routes.issued, s.traffic)
    && PendingOk(s.table, s.routes) && AnsweredOk(s.routes, s.traffic) && ReceivedOk(s.reader, s.traffic)
    && InboxesOk(s.routes, s.traffic) && DeliveringOk(s.reader, s.routes, s.traffic)
  }

  lemma StepKeepsTable(s: MuxState, step: Step)
    requires TableOk(s.table) && Enabled(s, step)
    ensures TableOk(Apply(s, step).table)
  {
    match step
    case Handler(c, does) => HandlerKeepsTable(s, c, does);
    case _ =>
  }

  /** A handler that moves on without leaving, or whose client is off the list. */
  lemma MovedKeepsTable(t: Table, c: nat, h: HandlerState)
    requires TableOk(t) && c in t.handlers
    requires IsUnlisted(h) ==> c !in t.clients && (h.Closing? || c !in t.open)
    ensures TableOk(Moved(t, c, h))
  {
  }

  lemma HandlerKeepsTable(s: MuxState, c: nat, does: HandlerStep)
    requires TableOk(s.table) && Enabled(s, Handler(c, does))
    ensures TableOk(Apply(s, Handler(c, does)).table)
  {
    var h := Apply(s, Handler(c, does)).table.handlers[c];
    match does
    case Unlist => MovedKeepsTable(s.table.(clients := s.table.clients - {c}), c, h);
    case CloseConn => MovedKeepsTable(s.table.(open := s.table.open - {c}), c, h);
    case Reply(_) => MovedKeepsTable(Apply(s, Handler(c, does)).table.(handlers := s.table.handlers), c, h);
    case _ => MovedKeepsTable(s.table, c, h);
  }

  /** Handing out the next id to the last message of a client. */
  lemma IssueNext(issued: map<int, Issue>, count: nat, tr: Traffic, c: nat, request: Message)
    requires IssuedOk(issued, count, tr) && IsLast(tr, c, request) && Unissued(issued, tr, c) && IsRequest(request)
    ensures IssuedOk(issued[count + 1 := Issue(c, |Sent(tr, c)| - 1, request)], count + 1, tr)
  {
  }

  /** What the clients have sent stays, and what is said about it. */
  lemma IssuedStays(issued: map<int, Issue>, count: nat, tr: Traffic, tr': Traffic)
    requires IssuedOk(issued, count, tr) && forall c: nat :: Sent(tr, c) <= Sent(tr', c)
    ensures IssuedOk(issued, count, tr')
  {
    forall d | d in issued ensures IsIssue(tr', issued[d]) {
      assert IsIssue(tr, issued[d]) && Sent(tr, issued[d].client) <= Sent(tr', issued[d].client);
    }
  }

  /** Only Register hands out ids, and only Read adds to what a client has sent. */
  lemma StepIssues(s: MuxState, step: Step)
    requires Enabled(s, step)
    ensures var t := Apply(s, step);
            && (forall c: nat :: Sent(t.traffic, c) ==
                  if step.Handler? && step.client == c && step.does.Read? then Sent(s.traffic, c) + [step.does.message]
                  else Sent(s.traffic, c))
            && if step.Handler? && step.does.Register? then
                 && t.routes.nextReqID == s.routes.nextReqID + 1
                 && t.routes.issued == s.routes.issued[s.routes.nextReqID + 1 :=
                      Issue(step.client, |Sent(s.traffic, step.client)| - 1, s.table.handlers[step.client].request)]
               else t.routes.nextReqID == s.routes.nextReqID && t.routes.issued == s.routes.issued
  {
    match step
    case Handler(c, does) => HandlerIssues(s, c, does);
    case Reader(loop) => ReaderIssues(s, loop);
    case _ =>
  }

  lemma HandlerIssues(s: MuxState, c: nat, does: HandlerStep)
    requires Enabled(s, Handler(c, does))
    ensures var t := Apply(s, Handler(c, does));
            && (forall x: nat :: Sent(t.traffic, x) ==
                  if does.Read? && x == c then Sent(s.traffic, c) + [does.message] else Sent(s.traffic, x))
            && if does.Register? then
                 && t.routes.nextReqID == s.routes.nextReqID + 1
                 && t.routes.issued == s.routes.issued[s.routes.nextReqID + 1 :=
                      Issue(c, |Sent(s.traffic, c)| - 1, s.table.handlers[c].request)]
               else t.routes.nextReqID == s.routes.nextReqID && t.routes.issued == s.routes.issued
  {
  }

  lemma ReaderIssues(s: MuxState, loop: ReaderStep)
    requires CanRead(s, loop)
    ensures var t := ReadOn(s, loop);
            t.traffic.sent == s.traffic.sent && t.routes.nextReqID == s.routes.nextReqID
              && t.routes.issued == s.routes.issued
  {
  }

  lemma StepKeepsIssued(s: MuxState, step: Step)
    requires IssuedOk(s.routes.issued, s.routes.nextReqID, s.traffic)
    requires RemappingOk(s.table, s.routes.issued, s.traffic)
    requires Enabled(s, step)
    ensures var t := Apply(s, step); IssuedOk(t.routes.issued, t.routes.nextReqID, t.traffic)
  {
    var t := Apply(s, step);
    StepIssues(s, step);
    if step.Handler? && step.does.Register? {
      RegisterKeepsIssued(s, step.client, step.does.daemonID);
    } else {
      IssuedStays(s.routes.issued, s.routes.nextReqID, s.traffic, t.traffic);
    }
  }

  lemma RegisterKeepsIssued(s: MuxState, c: nat, d: int)
    requires IssuedOk(s.routes.issued, s.routes.nextReqID, s.traffic)
    requires RemappingOk(s.table, s.routes.issued, s.traffic) && Enabled(s, Handler(c, Register(d)))
    ensures var t := Apply(s, Handler(c, Register(d))); IssuedOk(t.routes.issued, t.routes.nextReqID, t.traffic)
  {
    assert IsLast(s.traffic, c, s.table.handlers[c].request) && Unissued(s.routes.issued, s.traffic, c);
    IssueNext(s.routes.issued, s.routes.nextReqID, s.traffic, c, s.table.handlers[c].request);
  }

  lemma StepKeepsRemapping(s: MuxState, step: Step, c: nat)
    requires IssuedOk(s.routes.issued, s.routes.nextReqID, s.traffic)
    requires RemappingOk(s.table, s.routes.issued, s.traffic)
    requires Enabled(s, step)
    ensures var t := Apply(s, step);
            c in t.table.handlers && t.table.handlers[c].Remapping? ==>
              IsLast(t.traffic, c, t.table.handlers[c].request) && Unissued(t.routes.issued, t.traffic, c)
  {
    if step.Handler? && step.client == c {
      OwnStepKeepsRemapping(s, c, step.does);
    } else if c in Apply(s, step).table.handlers {
      OthersKeepHandler(s, step, c);
      StepIssues(s, step);
    }
  }

  /** A handler moves by its own steps only, or comes to be with its client. */
  lemma OthersKeepHandler(s: MuxState, step: Step, c: nat)
    requires Enabled(s, step) && !(step.Handler? && step.client == c) && c in Apply(s, step).table.handlers
    ensures var h := Apply(s, step).table.handlers[c];
            (step == Accept(c) && h == Reading) || (c in s.table.handlers && s.table.handlers[c] == h)
  {
  }

  /** Only by reading a message does a handler come to remap it. */
  lemma OwnStepKeepsRemapping(s: MuxState, c: nat, does: HandlerStep)
    requires IssuedOk(s.routes.issued, s.routes.nextReqID, s.traffic) && Enabled(s, Handler(c, does))
    ensures var t := Apply(s, Handler(c, does));
            t.table.handlers[c].Remapping? ==>
              IsLast(t.traffic, c, t.table.handlers[c].request) && Unissued(t.routes.issued, t.traffic, c)
  {
    var t := Apply(s, Handler(c, does));
    HandlerIssues(s, c, does);
    if t.table.handlers[c].Remapping? {
      assert does.Read?;
      forall d | d in s.routes.issued && s.routes.issued[d].client == c
        ensures s.routes.issued[d].index < |Sent(s.traffic, c)|
      {
        assert IsIssue(s.traffic, s.routes.issued[d]);
      }
    }
  }

  lemma StepKeepsPending(s: MuxState, step: Step, d: int)
    requires IssuedOk(s.routes.issued, s.routes.nextReqID, s.traffic) && PendingOk(s.table, s.routes)
    requires AnsweredOk(s.routes, s.traffic)
    requires Enabled(s, step) && d in Apply(s, step).routes.pending
    ensures PendingEntryOk(Apply(s, step).table, Apply(s, step).routes, d)
  {
    if d in s.routes.pending {
      assert PendingEntryOk(s.table, s.routes, d);
    }
    match step
    case Handler(c, does) => HandlerKeepsPending(s, c, does, d);
    case Reader(loop) => ReaderKeepsPending(s, loop, d);
    case _ =>
  }

  lemma HandlerKeepsPending(s: MuxState, c: nat, does: HandlerStep, d: int)
    requires IssuedOk(s.routes.issued, s.routes.nextReqID, s.traffic) && AnsweredOk(s.routes, s.traffic)
    requires Enabled(s, Handler(c, does)) && d in Apply(s, Handler(c, does)).routes.pending
    requires d in s.routes.pending ==> PendingEntryOk(s.table, s.routes, d)
    ensures PendingEntryOk(Apply(s, Handler(c, does)).table, Apply(s, Handler(c, does)).routes, d)
  {
    match does
    case Register(e) => RegisterKeepsPending(s, c, e, d);
    case _ =>
  }

  lemma RegisterKeepsPending(s: MuxState, c: nat, e: int, d: int)
    requires IssuedOk(s.routes.issued, s.routes.nextReqID, s.traffic) && AnsweredOk(s.routes, s.traffic)
    requires Enabled(s, Handler(c, Register(e))) && d in Apply(s, Handler(c, Register(e))).routes.pending
    requires d in s.routes.pending ==> PendingEntryOk(s.table, s.routes, d)
    ensures PendingEntryOk(Apply(s, Handler(c, Register(e))).table, Apply(s, Handler(c, Register(e))).routes, d)
  {
  }

  lemma ReaderKeepsPending(s: MuxState, loop: ReaderStep, d: int)
    requires CanRead(s, loop) && d in ReadOn(s, loop).routes.pending
    requires d in s.routes.pending ==> PendingEntryOk(s.table, s.routes, d)
    ensures PendingEntryOk(ReadOn(s, loop).table, ReadOn(s, loop).routes, d)
  {
  }

  lemma StepKeepsAnswered(s: MuxState, step: Step)
    requires PendingOk(s.table, s.routes) && AnsweredOk(s.routes, s.traffic) && ReceivedOk(s.reader, s.traffic)
    requires Enabled(s, step)
    ensures var t := Apply(s, step); AnsweredOk(t.routes, t.traffic) && ReceivedOk(t.reader, t.traffic)
  {
  }

  /** What has been said about a delivery stays true. */
  lemma OwnAnswerStays(s: MuxState, step: Step, c: nat, delivery: Delivery)
    requires PendingOk(s.table, s.routes) && IssuedOk(s.routes.issued, s.routes.nextReqID, s.traffic)
    requires Enabled(s, step)
    requires OwnAnswer(s.routes, c, delivery)
    ensures OwnAnswer(Apply(s, step).routes, c, delivery)
  {
  }

  /** What a step appends to the inbox of a client. */
  function NewDeliveries(s: MuxState, step: Step, c: nat): seq<Delivery>
    requires Enabled(s, step)
  {
    match step
    case Handler(c', Reply(ok)) =>
      var h := s.table.handlers[c'];
      if c == c' && ok && c in s.table.open && h.request.Message? && h.request.id.Some? && s.init.response.Some? then
        [FromCache(RewriteID(s.init.response.value, h.request.id.value))]
      else []
    case Reader(WriteClient(c', ok)) => if c == c' && ok && c in s.table.open then [s.reader.delivery] else []
    case _ => []
  }

  lemma StepDelivers(s: MuxState, step: Step, c: nat)
    requires Enabled(s, step)
    ensures Inbox(Apply(s, step).traffic, c) == Inbox(s.traffic, c) + NewDeliveries(s, step, c)
  {
    match step
    case Handler(x, does) => HandlerDelivers(s, x, does, c);
    case Reader(loop) => ReaderDelivers(s, loop, c);
    case _ =>
  }

  lemma HandlerDelivers(s: MuxState, x: nat, does: HandlerStep, c: nat)
    requires Enabled(s, Handler(x, does))
    ensures Inbox(Apply(s, Handler(x, does)).traffic, c) == Inbox(s.traffic, c) + NewDeliveries(s, Handler(x, does), c)
  {
  }

  lemma ReaderDelivers(s: MuxState, loop: ReaderStep, c: nat)
    requires CanRead(s, loop)
    ensures Inbox(ReadOn(s, loop).traffic, c) == Inbox(s.traffic, c) + NewDeliveries(s, Reader(loop), c)
  {
  }

  lemma StepKeepsInbox(s: MuxState, step: Step, c: nat)
    requires InboxesOk(s.routes, s.traffic) && DeliveringOk(s.reader, s.routes, s.traffic) && Enabled(s, step)
    requires PendingOk(s.table, s.routes) && IssuedOk(s.routes.issued, s.routes.nextReqID, s.traffic)
    ensures var t := Apply(s, step); OwnInbox(t.routes, c, Inbox(t.traffic, c))
  {
    var t := Apply(s, step);
    StepDelivers(s, step, c);
    var inbox := Inbox(s.traffic, c);
    assert OwnInbox(s.routes, c, inbox);
    forall i | 0 <= i < |Inbox(t.traffic, c)| ensures OwnAnswer(t.routes, c, Inbox(t.traffic, c)[i]) {
      if i < |inbox| {
        OwnAnswerStays(s, step, c, inbox[i]);
      } else {
        OwnAnswerStays(s, step, c, NewDeliveries(s, step, c)[0]);
      }
    }
  }

  lemma StepKeepsDelivering(s: MuxState, step: Step)
    requires InboxesOk(s.routes, s.traffic) && DeliveringOk(s.reader, s.routes, s.traffic) && Enabled(s, step)
    requires PendingOk(s.table, s.routes) && IssuedOk(s.routes.issued, s.routes.nextReqID, s.traffic)
    ensures var t := Apply(s, step); DeliveringOk(t.reader, t.routes, t.traffic)
  {
    match step
    case Reader(loop) => ReaderKeepsDelivering(s, loop);
    case _ => OthersKeepDelivering(s, step);
  }

  /** The read loop makes out a delivery for those it forwards to, and writes it to each of them once. */
  lemma ReaderKeepsDelivering(s: MuxState, loop: ReaderStep)
    requires InboxesOk(s.routes, s.traffic) && DeliveringOk(s.reader, s.routes, s.traffic) && CanRead(s, loop)
    requires PendingOk(s.table, s.routes)
    ensures var t := ReadOn(s, loop); DeliveringOk(t.reader, t.routes, t.traffic)
  {
    match loop
    case Forward(m, target) => ForwardKeepsDelivering(s, m, target);
    case _ =>
  }

  lemma ForwardKeepsDelivering(s: MuxState, m: Message, target: Option<nat>)
    requires InboxesOk(s.routes, s.traffic) && PendingOk(s.table, s.routes)
    ensures var t := ForwardOn(s, m, target); t.reader == s.reader || DeliveringOk(t.reader, t.routes, t.traffic)
  {
    if IsResponse(m) && Answered(s.routes.pending, m).Some? {
      var d := Answered(s.routes.pending, m).value;
      assert PendingEntryOk(s.table, s.routes, d);
      assert OwnInbox(s.routes, s.routes.pending[d].client, Inbox(s.traffic, s.routes.pending[d].client));
    }
  }

  /** Elsewhere nothing is delivered twice either: a cached reply is no answer. */
  lemma OthersKeepDelivering(s: MuxState, step: Step)
    requires DeliveringOk(s.reader, s.routes, s.traffic) && Enabled(s, step) && !step.Reader?
    requires PendingOk(s.table, s.routes) && IssuedOk(s.routes.issued, s.routes.nextReqID, s.traffic)
    ensures var t := Apply(s, step); DeliveringOk(t.reader, t.routes, t.traffic)
  {
    var t := Apply(s, step);
    assert t.reader == s.reader;
    if s.reader.Delivering? {
      forall c | c in s.reader.targets
        ensures OwnAnswer(t.routes, c, s.reader.delivery) && Undelivered(Inbox(t.traffic, c), s.reader.delivery)
      {
        OwnAnswerStays(s, step, c, s.reader.delivery);
        StepDelivers(s, step, c);
      }
    }
  }

  lemma StepKeepsRouting(s: MuxState, step: Step)
    requires Routing(s) && Enabled(s, step)
    ensures Routing(Apply(s, step))
  {
    StepKeepsTable(s, step);
    StepKeepsIssued(s, step);
    forall c ensures var t := Apply(s, step);
      c in t.table.handlers && t.table.handlers[c].Remapping? ==>
        IsLast(t.traffic, c, t.table.handlers[c].request) && Unissued(t.routes.issued, t.traffic, c)
    {
      StepKeepsRemapping(s, step, c);
    }
    forall d | d in Apply(s, step).routes.pending
      ensures PendingEntryOk(Apply(s, step).table, Apply(s, step).routes, d)
    {
      StepKeepsPending(s, step, d);
    }
    StepKeepsAnswered(s, step);
    forall c: nat ensures var t := Apply(s, step); OwnInbox(t.routes, c, Inbox(t.traffic, c)) {
      StepKeepsInbox(s, step, c);
    }
    StepKeepsDelivering(s, step);
  }

  lemma {:induction false} RunKeepsRouting(steps: seq<Step>, s: MuxState)
    requires Reaches(steps, s)
    ensures Routing(s)
  {
    if steps != [] {
      var t := RunFrom(INITIAL, steps[..|steps| - 1]).value;
      RunKeepsRouting(steps[..|steps| - 1], t);
      StepKeepsRouting(t, steps[|steps| - 1]);
    }
  }

  /** The delivery answers the index-th message this client sent, with a response of the server. */
  predicate AnswersRequest(tr: Traffic, c: nat, index: int, daemonID: int, response: Message, delivered: Message) {
    && 0 <= index < |Sent(tr, c)| && IsRequest(Sent(tr, c)[index])
    && IsAnswer(tr, daemonID, response)
    && delivered == Message(Sent(tr, c)[index].id, "", response.body)
  }

  /** Which of its client's messages an answer in an inbox belongs to. */
  function AnsweredIndex(routes: Routes, delivery: Delivery): int {
    if delivery.Routed? && delivery.daemonID in routes.issued then routes.issued[delivery.daemonID].index else -1
  }

  /**
   Every answer in the inbox of a client answers a request that this client
   sent, under the id the client gave it and otherwise as the server sent it;
   and no request of the client is answered twice.
   */
  lemma AnswersReachTheirClient(steps: seq<Step>, s: MuxState, c: nat)
    requires Reaches(steps, s)
    ensures var inbox := Inbox(s.traffic, c);
            && (forall i :: 0 <= i < |inbox| && inbox[i].Routed? ==>
                  exists response :: AnswersRequest(s.traffic, c, AnsweredIndex(s.routes, inbox[i]), inbox[i].daemonID,
                                                    response, inbox[i].message))
            && forall i, j :: 0 <= i < j < |inbox| && inbox[i].Routed? && inbox[j].Routed? ==>
                 AnsweredIndex(s.routes, inbox[i]) != AnsweredIndex(s.routes, inbox[j])
  {
    RunKeepsRouting(steps, s);
    var inbox := Inbox(s.traffic, c);
    assert OwnInbox(s.routes, c, inbox);
    forall i | 0 <= i < |inbox| && inbox[i].Routed?
      ensures exists response :: AnswersRequest(s.traffic, c, AnsweredIndex(s.routes, inbox[i]), inbox[i].daemonID,
                                                response, inbox[i].message)
    {
      var d := inbox[i].daemonID;
      assert OwnAnswer(s.routes, c, inbox[i]);
      assert IsIssue(s.traffic, s.routes.issued[d]) && IsAnswer(s.traffic, d, s.routes.answered[d]);
      assert AnswersRequest(s.traffic, c, AnsweredIndex(s.routes, inbox[i]), d, s.routes.answered[d], inbox[i].message);
    }
    forall i, j | 0 <= i < j < |inbox| && inbox[i].Routed? && inbox[j].Routed?
      ensures AnsweredIndex(s.routes, inbox[i]) != AnsweredIndex(s.routes, inbox[j])
    {
      assert OwnAnswer(s.routes, c, inbox[i]) && OwnAnswer(s.routes, c, inbox[j]);
      assert OtherRequest(s.routes.issued[inbox[i].daemonID], s.routes.issued[inbox[j].daemonID]);
    }
  }

  /**
   The pending table in every run: ids are at most nextReqID, so the next one is
   fresh and, below two thousand million requests, none is the id of the
   daemon's own shutdown request; and no entry names a client that has left.
   */
  lemma PendingKeysAreFresh(steps: seq<Step>, s: MuxState)
    requires Reaches(steps, s)
    ensures forall d :: d in s.routes.pending ==>
            1 <= d <= s.routes.nextReqID && !IsGone(s.table, s.routes.pending[d].client)
    ensures s.routes.nextReqID + 1 !in s.routes.pending
    ensures s.routes.nextReqID < SHUTDOWN_ID ==> SHUTDOWN_ID !in s.routes.pending
  {
    RunKeepsRouting(steps, s);
  }

  /** Two clients never share a pending request: each entry is the one request of the one client it was made for. */
  lemma PendingIsInjective(steps: seq<Step>, s: MuxState, d: int, e: int)
    requires Reaches(steps, s) && d in s.routes.pending && e in s.routes.pending && d != e
    ensures d in s.routes.issued && e in s.routes.issued && OtherRequest(s.routes.issued[d], s.routes.issued[e])
    ensures s.routes.pending[d].client == s.routes.issued[d].client
  {
    RunKeepsRouting(steps, s);
  }
}
