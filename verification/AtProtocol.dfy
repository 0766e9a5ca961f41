/**
 The approximately-timed bus `SimpleBusAT` composed with `at_target_1_phase` targets.

 Every function below is one atomic step: the code a process executes between two waits, or a part of
 it. Splitting such a segment only adds interleavings. Time moves forward only when no process has
 anything due, as in the SystemC scheduler.
 */
module AtProtocol {
  import opened AddressMap
  import opened Common
  import opened PayloadQueue

  // ---------------------------------------------------------------- data

  datatype Phase = BeginReq | EndReq | BeginResp | EndResp
  datatype Sync = Accepted | Updated | Completed

  /** What a non-blocking call returns: its status and the updated phase and delay arguments. */
  datatype Reply = Reply(status: Sync, phase: Phase, delay: nat)

  datatype Payload = Payload(read: bool, address: nat, length: nat)

  /** The bus's record of a transaction: the socket it came from and the one it went to. */
  datatype Connection = Connection(from: Option<nat>, to: Option<nat>)

  datatype Config = Config(accept: nat, readDelay: nat, writeDelay: nat, size: nat)

  /**
   A target: its request counter, its response queue, the transaction whose END_RESP its response
   method waits for (None: it waits for its queue), and the pending notification of that event.
   */
  datatype Target = Target(config: Config, count: nat, queue: Queue,
                           awaiting: Option<Txn>, endRespRcvd: Option<nat>)

  /** Where the bus's request thread waits. */
  datatype RequestThread =
    | ReqIdle                              // for its queue
    | ReqPause(until: nat)                 // for a time, then takes the next request
    | ReqEndReq(txn: Txn, until: nat)      // for a time, then sends END_REQ
    | ReqEvent(txn: Txn)                   // for the end-request event, then sends END_REQ

  /** Where the bus's response thread waits. */
  datatype ResponseThread =
    | RespIdle                             // for its queue
    | RespPause(txn: Txn, until: nat)      // for a time, then closes the transaction
    | RespEvent(txn: Txn)                  // for the end-response event
    | RespGo(txn: Txn)                     // that event came: closes the transaction

  /** Observable calls, in the order in which they happen, most of them with the time `at` which they do. */
  datatype Event =
    // initiator to bus: BEGIN_REQ with this payload, annotated with a delay
    | Asked(txn: Txn, from: nat, data: Payload, at: nat, delay: nat)
    // bus to target: BEGIN_REQ with the address as the target sees it
    | Sent(txn: Txn, to: nat, address: nat, at: nat)
    // the target's memory operation
    | Operated(txn: Txn, to: nat)
    // target returned TLM_COMPLETED to BEGIN_REQ
    | Closed(txn: Txn, to: nat, at: nat)
    // target returned TLM_UPDATED and END_REQ
    | Deferred(txn: Txn, to: nat, at: nat)
    // bus to initiator: END_REQ
    | SentEndReq(txn: Txn, from: nat, at: nat)
    // target to bus: BEGIN_RESP
    | Responded(txn: Txn, to: nat, at: nat)
    // bus to initiator: BEGIN_RESP, whether it completed, and the delay of that or until END_RESP
    | SentResp(txn: Txn, from: nat, done: bool, at: nat, delay: nat)
    // initiator to bus: END_RESP, annotated with a delay
    | Ended(txn: Txn, at: nat, delay: nat)
    // bus to target: END_RESP
    | SentEndResp(txn: Txn, to: nat, at: nat)
    // bus drops its reference
    | Released(txn: Txn, at: nat)

  datatype State = State(
    now: nat,
    payload: map<Txn, Payload>,
    pending: map<Txn, Connection>,
    requests: Queue,
    responses: Queue,
    req: RequestThread,
    resp: ResponseThread,
    endRequest: Option<nat>,       // pending notification of mEndRequestEvent
    endResponse: Option<nat>,      // pending notification of mEndResponseEvent
    targets: seq<Target>,
    owing: map<Txn, nat>,          // initiators that accepted BEGIN_RESP, and when they will call END_RESP
    held: map<Txn, int>,           // references acquired minus references released by the bus
    log: seq<Event>,
    fault: bool)                   // an assertion of the code failed, or a dead iterator was used

  /** An initiator's answer to BEGIN_RESP: completed after a delay, or END_RESP promised for later. */
  datatype Answer = Done(delay: nat) | Later(after: nat)

  function Lasting(a: Answer): nat { match a case Done(delay) => delay case Later(after) => after }

  datatype Step =
    | Request(from: nat, txn: Txn, data: Payload, delay: nat, at: nat)
    | Forward
    | RequestResume
    | SendEndReq
    | FireEndRequest
    | Respond(answer: Answer)
    | InitiatorEndResp(txn: Txn, delay: nat)
    | FireEndResponse
    | Close
    | TargetRespond(k: nat)
    | FireEndRespRcvd(k: nat)
    | Advance(to: nat)

  // ---------------------------------------------------------------- the sc_event rule

  /** A notification never postpones a pending one. */
  function Earliest(pending: Option<nat>, due: nat): (r: Option<nat>)
    ensures r.Some? && r.value <= due && (pending.Some? ==> r.value <= pending.value)
    ensures r == pending || r == Some(due)
  {
    match pending
    case Some(d) => if d <= due then pending else Some(due)
    case None => Some(due)
  }

  // ---------------------------------------------------------------- the target

  function OperationDelay(c: Config, p: Payload): nat {
    if p.read then c.readDelay else c.writeDelay
  }

  /** BEGIN_REQ at the target: every twentieth request is answered in several phases. */
  function TargetBeginReq(t: Target, x: Txn, p: Payload, now: nat): (Target, Reply) {
    var counted := t.(count := t.count + 1);
    if t.count % 20 != 0 then
      (counted, Reply(Completed, BeginReq,
                      t.config.accept +
                      if AccessOk(t.config.size, p.address, p.length) then OperationDelay(t.config, p) else 0))
    else
      (counted.(queue := Notify(t.queue, x, now + OperationDelay(t.config, p) + t.config.accept)),
       Reply(Updated, EndReq, t.config.accept))
  }

  /** END_RESP at the target. */
  function TargetEndResp(t: Target, now: nat): (Target, Reply) {
    (t.(endRespRcvd := Earliest(t.endRespRcvd, now)), Reply(Completed, EndResp, 0))
  }

  // ---------------------------------------------------------------- the bus

  function Fail(s: State): State { s.(fault := true) }

  /** References to the transaction that the bus holds. */
  function Held(s: State, x: Txn): int { if x in s.held then s.held[x] else 0 }

  /** `initiatorNBTransport` with BEGIN_REQ, made by initiator `i` at time `at`. */
  function DoRequest(s: State, i: nat, x: Txn, p: Payload, delay: nat, at: nat): State {
    if x in s.pending then Fail(s) else
    s.(now := at,
       payload := s.payload[x := p],
       pending := s.pending[x := Connection(Some(i), None)],
       requests := Notify(s.requests, x, at + delay),
       held := s.held[x := Held(s, x) + 1],
       log := s.log + [Asked(x, i, p, at, delay)])
  }

  /** The calls that passing a request on to target `k` makes. */
  function PassedOn(x: Txn, k: nat, address: nat, at: nat, completed: bool): seq<Event> {
    [Sent(x, k, address, at)] + if completed then [Operated(x, k), Closed(x, k, at)] else [Deferred(x, k, at)]
  }

  /** The request thread takes the next request and passes it to the decoded target. */
  function DoForward(s: State): State
    requires s.requests != []
  {
    var x := s.requests[0].txn;
    if x !in s.payload || x !in s.pending then Fail(s) else
    var k := Decode(s.payload[x].address);
    if k >= |s.targets| then Fail(s) else
    var p := s.payload[x].(address := Mask(s.payload[x].address));
    var (t, r) := TargetBeginReq(s.targets[k], x, p, s.now);
    var sent := s.(
      requests := s.requests[1..],
      payload := s.payload[x := p],
      pending := s.pending[x := s.pending[x].(to := Some(k))],
      targets := s.targets[k := t],
      log := s.log + PassedOn(x, k, p.address, s.now, r.status == Completed));
    AfterForward(sent, x, r)
  }

  /** What the request thread does with the target's reply. */
  function AfterForward(s: State, x: Txn, r: Reply): State
    requires x in s.pending
  {
    match r.status
    case Completed =>
      s.(responses := Notify(s.responses, x, s.now + r.delay),
         pending := s.pending[x := s.pending[x].(to := None)],
         req := ReqPause(s.now + r.delay))
    case _ =>
      match r.phase
      case BeginReq => s.(req := ReqEvent(x))
      case EndReq => s.(req := ReqEndReq(x, s.now + r.delay))
      case BeginResp => s.(responses := Notify(s.responses, x, s.now + r.delay))
      case EndResp => Fail(s)
  }

  /** After its pause the request thread sends END_REQ, unless BEGIN_RESP already went out. */
  function DoSendEndReq(s: State): State
    requires s.req.ReqEndReq?
  {
    var x := s.req.txn;
    if x !in s.pending then Fail(s) else
    s.(req := ReqIdle,
       log := s.log + if s.pending[x].from.Some? then [SentEndReq(x, s.pending[x].from.value, s.now)] else [])
  }

  /** The end-request event fires; it is lost unless the request thread waits for it. */
  function DoFireEndRequest(s: State): State {
    s.(endRequest := None,
       req := if s.req.ReqEvent? then ReqEndReq(s.req.txn, s.now) else s.req)
  }

  /** The response thread takes the next response and sends BEGIN_RESP to the initiator. */
  function DoRespond(s: State, answer: Answer): State
    requires s.responses != []
  {
    var x := s.responses[0].txn;
    if x !in s.pending || s.pending[x].from.None? then Fail(s) else
    var sent := s.(
      responses := s.responses[1..],
      pending := s.pending[x := s.pending[x].(from := None)],
      log := s.log + [SentResp(x, s.pending[x].from.value, answer.Done?, s.now, Lasting(answer))]);
    match answer
    case Done(delay) => sent.(resp := RespPause(x, s.now + delay))
    case Later(after) => sent.(resp := RespEvent(x), owing := s.owing[x := s.now + after])
  }

  /** `initiatorNBTransport` with END_RESP: the bus does not look at the transaction. */
  function DoInitiatorEndResp(s: State, x: Txn, delay: nat): State {
    s.(owing := s.owing - {x},
       endResponse := Earliest(s.endResponse, s.now + delay),
       log := s.log + [Ended(x, s.now, delay)])
  }

  /** The end-response event fires; it is lost unless the response thread waits for it. */
  function DoFireEndResponse(s: State): State {
    s.(endResponse := None,
       resp := if s.resp.RespEvent? then RespGo(s.resp.txn) else s.resp)
  }

  /** The response thread forwards END_RESP when the target still expects it, and forgets the transaction. */
  function DoClose(s: State): State
    requires s.resp.RespPause? || s.resp.RespGo?
  {
    var x := s.resp.txn;
    if x !in s.pending then Fail(s) else
    var gone := s.(resp := RespIdle,
                   pending := s.pending - {x},
                   held := s.held[x := Held(s, x) - 1]);
    match s.pending[x].to
    case None => gone.(log := s.log + [Released(x, s.now)])
    case Some(k) =>
      if k >= |s.targets| then Fail(s) else
      var (t, r) := TargetEndResp(s.targets[k], s.now);
      if r.status != Completed then Fail(s) else
      gone.(targets := s.targets[k := t], log := s.log + [SentEndResp(x, k, s.now), Released(x, s.now)])
  }

  /** `targetNBTransport` with BEGIN_RESP. */
  function BusBeginResp(s: State, x: Txn): State {
    s.(endRequest := Earliest(s.endRequest, s.now),
       responses := Notify(s.responses, x, s.now))
  }

  /** The response method of target `k`: memory operation, BEGIN_RESP, then wait for END_RESP. */
  function DoTargetRespond(s: State, k: nat): State
    requires k < |s.targets| && s.targets[k].queue != []
  {
    var t := s.targets[k];
    var x := t.queue[0].txn;
    BusBeginResp(s.(targets := s.targets[k := t.(queue := t.queue[1..], awaiting := Some(x))],
                    log := s.log + [Operated(x, k), Responded(x, k, s.now)]), x)
  }

  /** The target's end-response event fires; its response method looks at its queue again. */
  function DoFireEndRespRcvd(s: State, k: nat): State
    requires k < |s.targets|
  {
    s.(targets := s.targets[k := s.targets[k].(endRespRcvd := None, awaiting := None)])
  }

  // ---------------------------------------------------------------- scheduling

  /** A waiting process or a pending notification is due at `u`. */
  predicate RequestAt(s: State, u: nat) {
    match s.req
    case ReqIdle => s.requests != [] && s.requests[0].due == u
    case ReqPause(until) => until == u
    case ReqEndReq(_, until) => until == u
    case ReqEvent(_) => false
  }

  predicate ResponseAt(s: State, u: nat) {
    match s.resp
    case RespIdle => s.responses != [] && s.responses[0].due == u
    case RespPause(_, until) => until == u
    case RespEvent(_) => false
    case RespGo(_) => s.now == u
  }

  predicate TargetAt(t: Target, u: nat) {
    t.endRespRcvd == Some(u) || (t.awaiting.None? && t.queue != [] && t.queue[0].due == u)
  }

  ghost predicate Scheduled(s: State, u: nat) {
    || RequestAt(s, u)
    || ResponseAt(s, u)
    || s.endRequest == Some(u)
    || s.endResponse == Some(u)
    || (exists x :: x in s.owing && s.owing[x] == u)
    || (exists k :: 0 <= k < |s.targets| && TargetAt(s.targets[k], u))
  }

  ghost predicate NothingBefore(s: State, t: nat) {
    forall u | Scheduled(s, u) :: t <= u
  }

  /**
   When a step may happen. Requests come from the environment: a transaction that is not pending, that
   decodes to a bound port, at any time not later than the next thing scheduled.
   */
  ghost predicate Enabled(s: State, step: Step) {
    match step
    case Request(_, x, p, _, at) =>
      && x !in s.pending && Decode(p.address) < |s.targets|
      && s.now <= at && (s.now < at ==> NothingBefore(s, at))
    case Forward => s.req.ReqIdle? && s.requests != [] && s.requests[0].due <= s.now
    case RequestResume => s.req.ReqPause? && s.req.until <= s.now
    case SendEndReq => s.req.ReqEndReq? && s.req.until <= s.now
    case FireEndRequest => s.endRequest.Some? && s.endRequest.value <= s.now
    case Respond(_) => s.resp.RespIdle? && s.responses != [] && s.responses[0].due <= s.now
    case InitiatorEndResp(x, _) => x in s.owing && s.owing[x] <= s.now
    case FireEndResponse => s.endResponse.Some? && s.endResponse.value <= s.now
    case Close => (s.resp.RespPause? && s.resp.until <= s.now) || s.resp.RespGo?
    case TargetRespond(k) =>
      k < |s.targets| && s.targets[k].awaiting.None? && s.targets[k].queue != [] && s.targets[k].queue[0].due <= s.now
    case FireEndRespRcvd(k) =>
      k < |s.targets| && s.targets[k].endRespRcvd.Some? && s.targets[k].endRespRcvd.value <= s.now
    case Advance(to) => s.now < to && Scheduled(s, to) && NothingBefore(s, to)
  }

  ghost function Next(s: State, step: Step): State
    requires Enabled(s, step)
  {
    match step
    case Request(i, x, p, delay, at) => DoRequest(s, i, x, p, delay, at)
    case Forward => DoForward(s)
    case RequestResume => s.(req := ReqIdle)
    case SendEndReq => DoSendEndReq(s)
    case FireEndRequest => DoFireEndRequest(s)
    case Respond(answer) => DoRespond(s, answer)
    case InitiatorEndResp(x, delay) => DoInitiatorEndResp(s, x, delay)
    case FireEndResponse => DoFireEndResponse(s)
    case Close => DoClose(s)
    case TargetRespond(k) => DoTargetRespond(s, k)
    case FireEndRespRcvd(k) => DoFireEndRespRcvd(s, k)
    case Advance(to) => s.(now := to)
  }

  /** Before any request. Both response delays of every target are positive. */
  predicate Initial(s: State) {
    && s.pending == map[] && s.requests == [] && s.responses == []
    && s.req == ReqIdle && s.resp == RespIdle && s.endRequest == None && s.endResponse == None
    && s.owing == map[] && s.held == map[] && s.log == [] && !s.fault
    && forall k | 0 <= k < |s.targets| ::
         var t := s.targets[k];
         && t.config.readDelay > 0 && t.config.writeDelay > 0
         && t.count == 1 && t.queue == [] && t.awaiting == None && t.endRespRcvd == None
  }

  ghost predicate Runs(s: State, steps: seq<Step>, s': State)
    decreases |steps|
  {
    if steps == [] then s' == s
    else Enabled(s, steps[0]) && Runs(Next(s, steps[0]), steps[1..], s')
  }

  ghost predicate Reachable(s: State) {
    exists s0, steps :: Initial(s0) && Runs(s0, steps, s)
  }
}
