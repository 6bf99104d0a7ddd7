/**
 Clients, broker and workers as a labelled transition system (judgeserver.cc, the request loop of
 judgeworker.cc), under the ROUTER, DEALER and REP contracts of ZeroMQ: ROUTER puts the sender's
 identity in front of a message and routes by it, DEALER hands a message to one of its workers, REP
 keeps the frames up to the empty delimiter and puts them back in front of the reply.
 */
module Broker {

  datatype Request = Request(client: nat, number: nat, runId: nat)

  /** What a worker says about a request: its run, or a System Error with run id 0. */
  datatype Answer = Judged(runId: nat) | SystemError

  datatype Frame =
    | Identity(client: nat)
    | Delimiter
    | Ask(request: Request)
    | Reply(request: Request, answer: Answer)

  type Message = seq<Frame>

  /** The broker thread: inside `zmq_poll`, or somewhere in the two halves of its loop body. */
  datatype BrokerPc =
    | Polling
    | Ready(front: bool, back: bool)              // the events still to be served
    | GotRequest(message: Message, back: bool)    // received from the front, not yet sent
    | GotReply(message: Message)                  // received from the back, not yet sent

  datatype WorkerPc =
    | Idle
    | Busy(envelope: Message, request: Request)
    | Gone                                        // left its loop after a failed task

  datatype Delivery = Delivery(client: nat, request: Request, answer: Answer)

  datatype State = State(
    issued: seq<Request>,        // what clients sent, in the order of arrival at the ROUTER
    front: seq<Message>,         // waiting at the ROUTER
    broker: BrokerPc,
    queues: seq<seq<Message>>,   // waiting at each worker's REP socket
    workers: seq<WorkerPc>,
    back: seq<Message>,          // waiting at the DEALER
    delivered: seq<Delivery>,    // what clients received
    asked: seq<Message>,         // everything the ROUTER ever took in
    forwarded: seq<Message>,     // everything the broker sent to the DEALER
    answered: seq<Message>,      // everything the DEALER ever took in
    returned: seq<Message>,      // everything the broker sent to the ROUTER
    sentTo: seq<seq<Message>>,   // everything the DEALER handed to each worker
    taken: seq<seq<Message>>)    // everything each worker received

  // ---------- messages ----------

  /** A client's request as the ROUTER passes it on. */
  function RequestMessage(r: Request): Message {
    [Identity(r.client), Delimiter, Ask(r)]
  }

  function ReplyMessage(r: Request, a: Answer): Message {
    [Identity(r.client), Delimiter, Reply(r, a)]
  }

  /** The frames up to and including the first delimiter, which REP keeps. */
  function Envelope(m: Message): (e: Message)
    ensures e <= m
  {
    if m == [] then [] else if m[0] == Delimiter then [m[0]] else [m[0]] + Envelope(m[1..])
  }

  function Body(m: Message): Message {
    m[|Envelope(m)|..]
  }

  predicate IsRequest(m: Message) {
    |m| == 3 && m[2].Ask? && m == RequestMessage(m[2].request)
  }

  predicate IsReply(m: Message) {
    |m| == 3 && m[2].Reply? && m == ReplyMessage(m[2].request, m[2].answer)
  }

  /** A worker answers for the run it was asked about, or not at all. */
  predicate Fits(r: Request, a: Answer) {
    a == Judged(r.runId) || a == SystemError
  }

  // ---------- steps ----------

  datatype Action =
    | Issue(request: Request)
    | Poll
    | RecvFront
    | SendBack(worker: nat)
    | RecvBack
    | SendFront
    | Rest                          // no event left: back to zmq_poll
    | Take(worker: nat)             // a worker's recvMsg
    | Finish(worker: nat, ok: bool) // processTask returned, the reply goes out

  predicate Enabled(s: State, a: Action) {
    match a
    case Issue(r) => r !in s.issued
    case Poll => s.broker == Polling && (s.front != [] || s.back != [])
    case RecvFront => s.broker.Ready? && s.broker.front && s.front != []
    case SendBack(w) => s.broker.GotRequest? && w < |s.queues| && w < |s.sentTo|
    case RecvBack => s.broker.Ready? && !s.broker.front && s.broker.back && s.back != []
    case SendFront =>
      s.broker.GotReply? && |s.broker.message| == 3 && s.broker.message[0].Identity? && s.broker.message[2].Reply?
    case Rest => s.broker == Ready(false, false)
    case Take(w) => w < |s.queues| && w < |s.workers| && w < |s.taken| && s.workers[w].Idle? && s.queues[w] != []
                    && |Body(s.queues[w][0])| == 1 && Body(s.queues[w][0])[0].Ask?
    case Finish(w, ok) => w < |s.workers| && s.workers[w].Busy?
  }

  function Apply(s: State, a: Action): State
    requires Enabled(s, a)
  {
    match a
    case Issue(r) =>
      s.(issued := s.issued + [r], front := s.front + [RequestMessage(r)], asked := s.asked + [RequestMessage(r)])
    case Poll => s.(broker := Ready(s.front != [], s.back != []))
    case RecvFront => s.(broker := GotRequest(s.front[0], s.broker.back), front := s.front[1..])
    case SendBack(w) =>
      s.(broker := Ready(false, s.broker.back),
         queues := s.queues[w := s.queues[w] + [s.broker.message]],
         sentTo := s.sentTo[w := s.sentTo[w] + [s.broker.message]],
         forwarded := s.forwarded + [s.broker.message])
    case RecvBack => s.(broker := GotReply(s.back[0]), back := s.back[1..])
    case SendFront =>
      var m := s.broker.message;
      s.(broker := Polling,
         delivered := s.delivered + [Delivery(m[0].client, m[2].request, m[2].answer)],
         returned := s.returned + [m])
    case Rest => s.(broker := Polling)
    case Take(w) =>
      var m := s.queues[w][0];
      s.(workers := s.workers[w := Busy(Envelope(m), Body(m)[0].request)],
         queues := s.queues[w := s.queues[w][1..]],
         taken := s.taken[w := s.taken[w] + [m]])
    case Finish(w, ok) =>
      var r := s.workers[w].request;
      var reply := s.workers[w].envelope + [Reply(r, if ok then Judged(r.runId) else SystemError)];
      s.(workers := s.workers[w := if ok then Idle else Gone],
         back := s.back + [reply],
         answered := s.answered + [reply])
  }

  ghost predicate Init(s: State) {
    && s.issued == [] && s.front == [] && s.broker == Polling && s.back == [] && s.delivered == []
    && |s.queues| == |s.workers|
    && (forall w | 0 <= w < |s.queues| :: s.queues[w] == [] && s.workers[w] == Idle)
    && s.asked == [] && s.forwarded == [] && s.answered == [] && s.returned == []
    && |s.sentTo| == |s.taken| == |s.queues|
    && (forall w | 0 <= w < |s.queues| :: s.sentTo[w] == [] && s.taken[w] == [])
  }

  ghost predicate Next(s: State, s': State) {
    exists a :: Enabled(s, a) && s' == Apply(s, a)
  }

  ghost predicate Run(states: seq<State>) {
    && |states| > 0
    && Init(states[0])
    && (forall i {:trigger Next(states[i], states[i + 1])} | 0 <= i < |states| - 1 :: Next(states[i], states[i + 1]))
  }

  // ---------- where the requests are ----------

  /** How often a message is about request `r`. */
  function Names(m: Message, r: Request): nat {
    if |m| == 3 && (m[2].Ask? || m[2].Reply?) && m[2].request == r then 1 else 0
  }

  function InMessages(ms: seq<Message>, r: Request): nat {
    if ms == [] then 0 else Names(ms[0], r) + InMessages(ms[1..], r)
  }

  function InQueues(queues: seq<seq<Message>>, r: Request): nat {
    if queues == [] then 0 else InMessages(queues[0], r) + InQueues(queues[1..], r)
  }

  function InWorker(w: WorkerPc, r: Request): nat {
    if w.Busy? && w.request == r then 1 else 0
  }

  function InWorkers(workers: seq<WorkerPc>, r: Request): nat {
    if workers == [] then 0 else InWorker(workers[0], r) + InWorkers(workers[1..], r)
  }

  function InBroker(pc: BrokerPc, r: Request): nat {
    match pc
    case GotRequest(m, _) => Names(m, r)
    case GotReply(m) => Names(m, r)
    case _ => 0
  }

  function InDelivered(ds: seq<Delivery>, r: Request): nat {
    if ds == [] then 0 else InDelivered(ds[..|ds| - 1], r) + if ds[|ds| - 1].request == r then 1 else 0
  }

  /** In how many places a request is. */
  function Places(s: State, r: Request): nat {
    InMessages(s.front, r) + InBroker(s.broker, r) + InQueues(s.queues, r) + InWorkers(s.workers, r)
      + InMessages(s.back, r) + InDelivered(s.delivered, r)
  }

  lemma {:induction false} InMessagesAppend(ms: seq<Message>, m: Message, r: Request)
    ensures InMessages(ms + [m], r) == InMessages(ms, r) + Names(m, r)
  {
    if ms == [] {
      assert [m][1..] == [] && [] + [m] == [m];
    } else {
      assert (ms + [m])[1..] == ms[1..] + [m];
      InMessagesAppend(ms[1..], m, r);
    }
  }

  lemma {:induction false} InQueuesUpdate(queues: seq<seq<Message>>, w: nat, q: seq<Message>, r: Request)
    requires w < |queues|
    ensures InQueues(queues[w := q], r) + InMessages(queues[w], r) == InQueues(queues, r) + InMessages(q, r)
  {
    if w == 0 {
      assert queues[w := q][1..] == queues[1..];
    } else {
      assert queues[w := q][1..] == queues[1..][w - 1 := q];
      InQueuesUpdate(queues[1..], w - 1, q, r);
    }
  }

  lemma {:induction false} InWorkersUpdate(workers: seq<WorkerPc>, w: nat, pc: WorkerPc, r: Request)
    requires w < |workers|
    ensures InWorkers(workers[w := pc], r) + InWorker(workers[w], r) == InWorkers(workers, r) + InWorker(pc, r)
  {
    if w == 0 {
      assert workers[w := pc][1..] == workers[1..];
    } else {
      assert workers[w := pc][1..] == workers[1..][w - 1 := pc];
      InWorkersUpdate(workers[1..], w - 1, pc, r);
    }
  }

  lemma InDeliveredAppend(ds: seq<Delivery>, d: Delivery, r: Request)
    ensures InDelivered(ds + [d], r) == InDelivered(ds, r) + if d.request == r then 1 else 0
  {
    assert (ds + [d])[..|ds|] == ds;
  }

  // ---------- the invariant ----------

  ghost predicate AllRequests(ms: seq<Message>) {
    forall i | 0 <= i < |ms| :: IsRequest(ms[i])
  }

  /** Replies that answer for the run they were asked about. */
  ghost predicate AllReplies(ms: seq<Message>) {
    forall i | 0 <= i < |ms| :: IsReply(ms[i]) && Fits(ms[i][2].request, ms[i][2].answer)
  }

  /** Every message has the shape of its place. */
  ghost predicate Typed(s: State) {
    && |s.queues| == |s.workers|
    && AllRequests(s.front)
    && (s.broker.GotRequest? ==> IsRequest(s.broker.message))
    && (forall w | 0 <= w < |s.queues| :: AllRequests(s.queues[w]))
    && (forall w | 0 <= w < |s.workers| && s.workers[w].Busy? ::
          s.workers[w].envelope == [Identity(s.workers[w].request.client), Delimiter])
    && AllReplies(s.back)
    && (s.broker.GotReply? ==> AllReplies([s.broker.message]))
    && (forall i | 0 <= i < |s.delivered| ::
          s.delivered[i].client == s.delivered[i].request.client && Fits(s.delivered[i].request, s.delivered[i].answer))
  }

  function FrontHand(pc: BrokerPc): seq<Message> {
    if pc.GotRequest? then [pc.message] else []
  }

  function BackHand(pc: BrokerPc): seq<Message> {
    if pc.GotReply? then [pc.message] else []
  }

  /** On each side, what went out, what is in hand and what waits is what came in. */
  ghost predicate InOrder(s: State) {
    && s.asked == s.forwarded + FrontHand(s.broker) + s.front
    && s.answered == s.returned + BackHand(s.broker) + s.back
  }

  /** Every request sent is in exactly one place, and nothing else is anywhere. */
  ghost predicate Conserved(s: State) {
    forall r :: Places(s, r) == if r in s.issued then 1 else 0
  }

  /** The broker serves an event only if the message is still there. */
  ghost predicate PollInv(s: State) {
    && (s.broker.Ready? && s.broker.front ==> s.front != [])
    && (s.broker.Ready? && s.broker.back ==> s.back != [])
    && (s.broker.GotRequest? && s.broker.back ==> s.back != [])
  }

  /** Each worker has taken what was handed to it, in that order, up to what waits in its queue. */
  ghost predicate Queued(s: State) {
    && |s.sentTo| == |s.taken| == |s.queues|
    && forall w | 0 <= w < |s.queues| :: s.sentTo[w] == s.taken[w] + s.queues[w]
  }

  predicate IsError(m: Message) {
    |m| == 3 && m[2].Reply? && m[2].answer == SystemError
  }

  function ErrorCount(ms: seq<Message>): nat {
    if ms == [] then 0 else ErrorCount(ms[..|ms| - 1]) + if IsError(ms[|ms| - 1]) then 1 else 0
  }

  function GoneCount(workers: seq<WorkerPc>): nat {
    if workers == [] then 0 else GoneCount(workers[..|workers| - 1]) + if workers[|workers| - 1].Gone? then 1 else 0
  }

  /** A System Error is what a worker says last, and only then. */
  ghost predicate ErrorsAreLast(s: State) {
    ErrorCount(s.answered) == GoneCount(s.workers)
  }

  /** A delivery is what the ROUTER was given. */
  ghost predicate Delivered(s: State) {
    && |s.delivered| == |s.returned|
    && forall i | 0 <= i < |s.returned| ::
         s.returned[i] == ReplyMessage(s.delivered[i].request, s.delivered[i].answer)
  }

  ghost predicate Inv(s: State) {
    Typed(s) && Conserved(s) && InOrder(s) && PollInv(s) && Queued(s) && ErrorsAreLast(s) && Delivered(s)
  }

  lemma RequestSplit(r: Request)
    ensures Envelope(RequestMessage(r)) == [Identity(r.client), Delimiter]
    ensures Body(RequestMessage(r)) == [Ask(r)]
  {
    var m := RequestMessage(r);
    assert m[1..] == [Delimiter, Ask(r)];
    assert Envelope(m[1..]) == [Delimiter];
    assert Envelope(m) == [Identity(r.client)] + [Delimiter];
  }

  lemma {:induction false} NoneInQueues(queues: seq<seq<Message>>, r: Request)
    requires forall w | 0 <= w < |queues| :: queues[w] == []
    ensures InQueues(queues, r) == 0
  {
    if queues != [] {
      NoneInQueues(queues[1..], r);
    }
  }

  lemma {:induction false} NoneInWorkers(workers: seq<WorkerPc>, r: Request)
    requires forall w | 0 <= w < |workers| :: workers[w] == Idle
    ensures InWorkers(workers, r) == 0
  {
    if workers != [] {
      NoneInWorkers(workers[1..], r);
    }
  }

  lemma InitInv(s: State)
    requires Init(s)
    ensures Inv(s)
  {
    forall r ensures Places(s, r) == 0 {
      NoneInQueues(s.queues, r);
      NoneInWorkers(s.workers, r);
    }
    NoneGone(s.workers);
  }

  lemma {:induction false} NoneGone(workers: seq<WorkerPc>)
    requires forall w | 0 <= w < |workers| :: workers[w] == Idle
    ensures GoneCount(workers) == 0
  {
    if workers != [] {
      NoneGone(workers[..|workers| - 1]);
    }
  }

  lemma {:induction false} GoneUpdate(workers: seq<WorkerPc>, w: nat, pc: WorkerPc)
    requires w < |workers|
    ensures GoneCount(workers[w := pc]) + (if workers[w].Gone? then 1 else 0) ==
      GoneCount(workers) + if pc.Gone? then 1 else 0
  {
    var n := |workers| - 1;
    if w == n {
      assert workers[w := pc][..n] == workers[..n];
    } else {
      assert workers[w := pc][..n] == workers[..n][w := pc];
      GoneUpdate(workers[..n], w, pc);
    }
  }

  lemma ErrorAppend(ms: seq<Message>, m: Message)
    ensures ErrorCount(ms + [m]) == ErrorCount(ms) + if IsError(m) then 1 else 0
  {
    assert (ms + [m])[..|ms|] == ms;
  }

  lemma StepErrors(s: State, a: Action)
    requires Typed(s) && ErrorsAreLast(s) && Enabled(s, a)
    ensures ErrorsAreLast(Apply(s, a))
  {
    match a {
      case Take(w) =>
        var m := s.queues[w][0];
        GoneUpdate(s.workers, w, Busy(Envelope(m), Body(m)[0].request));
      case Finish(w, ok) =>
        FinishErrors(s, w, ok);
      case _ =>
    }
  }

  lemma FinishErrors(s: State, w: nat, ok: bool)
    requires Typed(s) && ErrorsAreLast(s) && Enabled(s, Finish(w, ok))
    ensures ErrorsAreLast(Apply(s, Finish(w, ok)))
  {
    var r := s.workers[w].request;
    var reply := s.workers[w].envelope + [Reply(r, if ok then Judged(r.runId) else SystemError)];
    assert |s.workers[w].envelope| == 2 && reply[2] == Reply(r, if ok then Judged(r.runId) else SystemError);
    assert IsError(reply) <==> !ok;
    GoneUpdate(s.workers, w, if ok then Idle else Gone);
    ErrorAppend(s.answered, reply);
  }

  lemma StepQueued(s: State, a: Action)
    requires Queued(s) && Enabled(s, a)
    ensures Queued(Apply(s, a))
  {
    match a {
      case Take(w) =>
        assert s.queues[w] == [s.queues[w][0]] + s.queues[w][1..];
      case _ =>
    }
  }

  lemma StepDelivered(s: State, a: Action)
    requires Typed(s) && Delivered(s) && Enabled(s, a)
    ensures Delivered(Apply(s, a))
  {
    if a.SendFront? {
      assert IsReply([s.broker.message][0]);
    }
  }

  lemma StepTyped(s: State, a: Action)
    requires Typed(s) && Enabled(s, a)
    ensures Typed(Apply(s, a))
  {
    match a {
      case Take(w) => TakeTyped(s, w);
      case SendBack(w) => SendBackTyped(s, w);
      case Finish(w, ok) => FinishTyped(s, w, ok);
      case RecvBack =>
        assert AllReplies([s.back[0]]);
      case SendFront =>
        assert IsReply([s.broker.message][0]);
      case _ =>
    }
  }

  lemma TakeTyped(s: State, w: nat)
    requires Typed(s) && Enabled(s, Action.Take(w))
    ensures Typed(Apply(s, Action.Take(w)))
  {
    RequestSplit(s.queues[w][0][2].request);
  }

  lemma SendBackTyped(s: State, w: nat)
    requires Typed(s) && Enabled(s, SendBack(w))
    ensures Typed(Apply(s, SendBack(w)))
  {
    var queue := s.queues[w] + [s.broker.message];
    assert AllRequests(queue);
  }

  lemma FinishTyped(s: State, w: nat, ok: bool)
    requires Typed(s) && Enabled(s, Finish(w, ok))
    ensures Typed(Apply(s, Finish(w, ok)))
  {
    var r := s.workers[w].request;
    var answer := if ok then Judged(r.runId) else SystemError;
    assert s.workers[w].envelope + [Reply(r, answer)] == ReplyMessage(r, answer);
  }

  /** No action loses or doubles a request. */
  lemma StepConserves(s: State, a: Action, r: Request)
    requires Typed(s) && Enabled(s, a)
    ensures Places(Apply(s, a), r) == Places(s, r) + if a == Issue(r) then 1 else 0
  {
    match a {
      case Issue(sent) =>
        InMessagesAppend(s.front, RequestMessage(sent), r);
      case SendBack(w) =>
        InMessagesAppend(s.queues[w], s.broker.message, r);
        InQueuesUpdate(s.queues, w, s.queues[w] + [s.broker.message], r);
      case SendFront =>
        var m := s.broker.message;
        InDeliveredAppend(s.delivered, Delivery(m[0].client, m[2].request, m[2].answer), r);
      case Take(w) =>
        TakeConserves(s, w, r);
      case Finish(w, ok) =>
        FinishConserves(s, w, ok, r);
      case _ =>
    }
  }

  lemma TakeConserves(s: State, w: nat, r: Request)
    requires Typed(s) && Enabled(s, Action.Take(w))
    ensures Places(Apply(s, Action.Take(w)), r) == Places(s, r)
  {
    var m := s.queues[w][0];
    assert IsRequest(m);
    RequestSplit(m[2].request);
    InQueuesUpdate(s.queues, w, s.queues[w][1..], r);
    InWorkersUpdate(s.workers, w, Busy(Envelope(m), Body(m)[0].request), r);
  }

  lemma FinishConserves(s: State, w: nat, ok: bool, r: Request)
    requires Typed(s) && Enabled(s, Finish(w, ok))
    ensures Places(Apply(s, Finish(w, ok)), r) == Places(s, r)
  {
    var mine := s.workers[w].request;
    var reply := s.workers[w].envelope + [Reply(mine, if ok then Judged(mine.runId) else SystemError)];
    assert |reply| == 3 && reply[2].request == mine;
    InWorkersUpdate(s.workers, w, if ok then Idle else Gone, r);
    InMessagesAppend(s.back, reply, r);
  }

  lemma StepInOrder(s: State, a: Action)
    requires InOrder(s) && Enabled(s, a)
    ensures InOrder(Apply(s, a))
  {
    match a {
      case RecvFront =>
        assert s.front == [s.front[0]] + s.front[1..];
      case RecvBack =>
        assert s.back == [s.back[0]] + s.back[1..];
      case _ =>
    }
  }

  lemma StepKeepsInv(s: State, a: Action)
    requires Inv(s) && Enabled(s, a)
    ensures Inv(Apply(s, a))
  {
    StepTyped(s, a);
    StepInOrder(s, a);
    forall r ensures Places(Apply(s, a), r) == if r in Apply(s, a).issued then 1 else 0 {
      StepConserves(s, a, r);
    }
    StepPoll(s, a);
    StepQueued(s, a);
    StepErrors(s, a);
    StepDelivered(s, a);
  }

  lemma StepPoll(s: State, a: Action)
    requires PollInv(s) && Enabled(s, a)
    ensures PollInv(Apply(s, a))
  {
  }

  /** The invariant holds in every state of every run. */
  lemma {:induction false} RunInv(states: seq<State>, i: nat)
    requires Run(states) && i < |states|
    ensures Inv(states[i])
  {
    if i == 0 {
      InitInv(states[0]);
    } else {
      var k := i - 1;
      RunInv(states, k);
      assert Next(states[k], states[k + 1]);
      var a :| Enabled(states[k], a) && states[k + 1] == Apply(states[k], a);
      StepKeepsInv(states[k], a);
    }
  }

  // ---------- the promises ----------

  /**
   Every request a client sent is in exactly one place: waiting at the front, in the broker's hand,
   in one worker's queue, in processing, waiting at the back, or delivered.  Nothing else is anywhere.
   */
  lemma Conservation(states: seq<State>, i: nat, r: Request)
    requires Run(states) && i < |states|
    ensures Places(states[i], r) == if r in states[i].issued then 1 else 0
  {
    RunInv(states, i);
  }

  lemma {:induction false} DeliveredOnce(ds: seq<Delivery>, j: nat)
    requires j < |ds|
    ensures InDelivered(ds, ds[j].request) >= 1
  {
    if j < |ds| - 1 {
      DeliveredOnce(ds[..|ds| - 1], j);
    }
  }

  lemma {:induction false} DeliveredTwice(ds: seq<Delivery>, j: nat, k: nat)
    requires j < k < |ds| && ds[j].request == ds[k].request
    ensures InDelivered(ds, ds[j].request) >= 2
  {
    var rest := ds[..|ds| - 1];
    if k < |rest| {
      DeliveredTwice(rest, j, k);
    } else {
      DeliveredOnce(rest, j);
    }
  }

  /** No request is answered twice, and no answer comes without a request. */
  lemma AnsweredOnce(states: seq<State>, i: nat, j: nat)
    requires Run(states) && i < |states| && j < |states[i].delivered|
    ensures states[i].delivered[j].request in states[i].issued
    ensures forall k | 0 <= k < |states[i].delivered| && k != j ::
      states[i].delivered[k].request != states[i].delivered[j].request
  {
    var ds := states[i].delivered;
    var r := ds[j].request;
    Conservation(states, i, r);
    DeliveredOnce(ds, j);
    forall k | 0 <= k < |ds| && k != j ensures ds[k].request != r {
      if ds[k].request == r {
        DeliveredTwice(ds, if j < k then j else k, if j < k then k else j);
      }
    }
  }

  /** A reply reaches the client that asked, and speaks of the run it asked about. */
  lemma RightClient(states: seq<State>, i: nat, j: nat)
    requires Run(states) && i < |states| && j < |states[i].delivered|
    ensures states[i].delivered[j].client == states[i].delivered[j].request.client
    ensures states[i].delivered[j].answer == Judged(states[i].delivered[j].request.runId)
         || states[i].delivered[j].answer == SystemError
  {
    RunInv(states, i);
  }

  /** In every reachable state the workers have said System Error exactly as often as workers have left. */
  lemma ErrorsAreGone(states: seq<State>, i: nat)
    requires Run(states) && i < |states|
    ensures ErrorCount(states[i].answered) == GoneCount(states[i].workers)
  {
    RunInv(states, i);
  }

  /** What finishing a task does to its worker and says to its client. */
  lemma FinishSays(states: seq<State>, i: nat, w: nat, ok: bool)
    requires Run(states) && i < |states| && Enabled(states[i], Finish(w, ok))
    ensures var s, r := states[i], states[i].workers[w].request;
      var s' := Apply(s, Finish(w, ok));
      && s'.back == s.back + [[Identity(r.client), Delimiter, Reply(r, if ok then Judged(r.runId) else SystemError)]]
      && s'.workers[w] == if ok then Idle else Gone
  {
    RunInv(states, i);
    var r := states[i].workers[w].request;
    var answer := if ok then Judged(r.runId) else SystemError;
    assert states[i].workers[w].envelope == [Identity(r.client), Delimiter];
    assert [Identity(r.client), Delimiter] + [Reply(r, answer)] == [Identity(r.client), Delimiter, Reply(r, answer)];
  }

  function DeliveredErrors(ds: seq<Delivery>): nat {
    if ds == [] then 0
    else DeliveredErrors(ds[..|ds| - 1]) + if ds[|ds| - 1].answer == SystemError then 1 else 0
  }

  lemma {:induction false} ErrorsAgree(ds: seq<Delivery>, ms: seq<Message>)
    requires |ds| == |ms| && forall i | 0 <= i < |ms| :: ms[i] == ReplyMessage(ds[i].request, ds[i].answer)
    ensures DeliveredErrors(ds) == ErrorCount(ms)
  {
    if ms != [] {
      ErrorsAgree(ds[..|ds| - 1], ms[..|ms| - 1]);
    }
  }

  lemma {:induction false} ErrorsInPrefix(ms: seq<Message>, n: nat)
    requires n <= |ms|
    ensures ErrorCount(ms[..n]) <= ErrorCount(ms)
  {
    if n < |ms| {
      ErrorsInPrefix(ms[..|ms| - 1], n);
      assert ms[..|ms| - 1][..n] == ms[..n];
    } else {
      assert ms[..n] == ms;
    }
  }

  /** Clients never receive more System Errors than workers have left. */
  lemma ErrorsDelivered(states: seq<State>, i: nat)
    requires Run(states) && i < |states|
    ensures DeliveredErrors(states[i].delivered) <= GoneCount(states[i].workers)
  {
    RunInv(states, i);
    var s := states[i];
    SentIsPrefix(s);
    ErrorsAgree(s.delivered, s.returned);
    ErrorsInPrefix(s.answered, |s.returned|);
    assert s.answered[..|s.returned|] == s.returned;
  }

  /** A worker takes its requests in the order in which they were handed to it, none left out. */
  lemma TakenInOrder(states: seq<State>, i: nat, w: nat)
    requires Run(states) && i < |states| && w < |states[i].queues|
    ensures w < |states[i].taken| && w < |states[i].sentTo|
    ensures states[i].sentTo[w] == states[i].taken[w] + states[i].queues[w]
  {
    RunInv(states, i);
  }

  /** One turn of the broker's loop hands on the first message of each side that has any. */
  lemma TurnServes(states: seq<State>, i: nat, w: nat)
    requires Run(states) && i < |states| && w < |states[i].queues|
    requires states[i].broker == Polling && (states[i].front != [] || states[i].back != [])
    ensures var s := states[i];
      && Enabled(s, Poll)
      && var polled := Apply(s, Poll);
      && (s.front != [] ==>
            && Enabled(polled, RecvFront)
            && Enabled(Apply(polled, RecvFront), SendBack(w)))
      && var half := if s.front != [] then Apply(Apply(polled, RecvFront), SendBack(w)) else polled;
      && (s.front != [] ==>
            && half.front == s.front[1..] && half.forwarded == s.forwarded + [s.front[0]]
            && half.queues == s.queues[w := s.queues[w] + [s.front[0]]])
      && (s.back != [] ==>
            && Enabled(half, RecvBack)
            && Enabled(Apply(half, RecvBack), SendFront)
            && Apply(Apply(half, RecvBack), SendFront).returned == s.returned + [s.back[0]]
            && Apply(Apply(half, RecvBack), SendFront).broker == Polling)
      && (s.back == [] ==> Enabled(half, Rest) && Apply(half, Rest).broker == Polling)
  {
    RunInv(states, i);
    var s := states[i];
    if s.back != [] {
      assert IsReply(s.back[0]);
    }
  }

  /** On each side the broker has sent a prefix, message by message, of what it was given. */
  lemma PrefixForwarding(states: seq<State>, i: nat)
    requires Run(states) && i < |states|
    ensures states[i].forwarded <= states[i].asked
    ensures states[i].returned <= states[i].answered
  {
    RunInv(states, i);
    SentIsPrefix(states[i]);
  }

  lemma SentIsPrefix(s: State)
    requires InOrder(s)
    ensures s.forwarded <= s.asked && s.returned <= s.answered
  {
    assert s.asked == s.forwarded + (FrontHand(s.broker) + s.front);
    assert s.answered == s.returned + (BackHand(s.broker) + s.back);
  }

  /** With at least one worker the broker never blocks on a message that is not there. */
  lemma BrokerProceeds(states: seq<State>, i: nat) returns (a: Action)
    requires Run(states) && i < |states| && |states[i].queues| > 0
    requires states[i].broker != Polling || states[i].front != [] || states[i].back != []
    ensures Enabled(states[i], a) && !a.Issue? && !a.Take? && !a.Finish?
  {
    RunInv(states, i);
    match states[i].broker {
      case Polling => a := Poll;
      case Ready(front, back) => a := if front then RecvFront else if back then RecvBack else Rest;
      case GotRequest(_, _) => a := SendBack(0);
      case GotReply(m) =>
        assert IsReply([m][0]);
        a := SendFront;
    }
  }

  /** An idle worker can take whatever waits in its queue. */
  lemma WorkerProceeds(states: seq<State>, i: nat, w: nat)
    requires Run(states) && i < |states| && w < |states[i].workers| && w < |states[i].queues|
    requires states[i].workers[w] == Idle && states[i].queues[w] != []
    ensures Enabled(states[i], Action.Take(w))
  {
    RunInv(states, i);
    var m := states[i].queues[w][0];
    assert IsRequest(m);
    RequestSplit(m[2].request);
  }
}
