/**
 The modules `SimpleBusAT` and `at_target_1_phase` as objects whose methods are the code between two
 waits. Each method is proved to take the protocol step of the same meaning, and the assertions of the
 code are proved where the code makes them, from facts that the invariant gives (`ThreadsReady`).
 */
module AtModules {
  import opened AddressMap
  import opened Common
  import opened PayloadQueue
  import opened AtProtocol
  import opened AtInvariant

  /** What the assertions of the request thread ask for the transaction it takes. */
  predicate ForwardReady(s: State)
    requires s.requests != []
  {
    var x := s.requests[0].txn;
    x in s.payload && Decode(s.payload[x].address) < |s.targets| && x in s.pending
  }

  /** What the response thread relies on for the transaction it takes. */
  predicate RespondReady(s: State)
    requires s.responses != []
  {
    s.responses[0].txn in s.pending && s.pending[s.responses[0].txn].from.Some?
  }

  /** What the response thread relies on when it closes its transaction. */
  predicate CloseReady(s: State)
    requires !s.resp.RespIdle?
  {
    var x := s.resp.txn;
    x in s.pending && x in s.payload && (s.pending[x].to.Some? ==> s.pending[x].to.value < |s.targets|)
  }

  /** The invariant gives the threads what they rely on. */
  lemma ThreadsReady(s: State)
    requires Inv(s)
    ensures s.requests != [] ==> ForwardReady(s)
    ensures s.responses != [] ==> RespondReady(s)
    ensures !s.resp.RespIdle? ==> CloseReady(s)
    ensures RequestWait(s) && OneResponse(s)
  {
    if s.requests != [] { assert Local(s, s.requests[0].txn, 0); }
    if s.responses != [] { assert Local(s, s.responses[0].txn, 0); }
    if !s.resp.RespIdle? { assert Local(s, s.resp.txn, 0); }
  }

  class AtTarget1Phase {
    const config: Config
    var requestCount: nat
    var responseQueue: Queue
    var awaiting: Option<Txn>
    var endRespRcvd: Option<nat>

    ghost function Abs(): Target reads this {
      Target(config, requestCount, responseQueue, awaiting, endRespRcvd)
    }

    constructor (config: Config)
      ensures Abs() == Target(config, 1, [], None, None)
    {
      this.config := config;
      requestCount, responseQueue, awaiting, endRespRcvd := 1, [], None, None;
    }

    /** `nb_transport_fw`; the other two phases are fatal in a target. */
    method NbTransportFw(x: Txn, p: Payload, phase: Phase, now: nat) returns (r: Reply)
      requires phase == BeginReq || phase == EndResp
      modifies this
      ensures (Abs(), r) ==
              if phase == BeginReq then TargetBeginReq(old(Abs()), x, p, now) else TargetEndResp(old(Abs()), now)
    {
      match phase
      case BeginReq =>
        var deferred := requestCount % 20 == 0;
        requestCount := requestCount + 1;
        if !deferred {
          var delay := if AccessOk(config.size, p.address, p.length) then OperationDelay(config, p) else 0;
          r := Reply(Completed, BeginReq, delay + config.accept);
        } else {
          responseQueue := Notify(responseQueue, x, now + OperationDelay(config, p) + config.accept);
          r := Reply(Updated, EndReq, config.accept);
        }
      case EndResp =>
        endRespRcvd := Earliest(endRespRcvd, now);
        r := Reply(Completed, EndResp, 0);
    }

    /** One pass of `begin_response_method`: the bus accepts BEGIN_RESP, so it returns to wait for END_RESP. */
    method BeginResponseMethod(bus: SimpleBusAT, ghost k: nat)
      requires bus.Valid() && k < |bus.targets| && bus.targets[k] == this
      requires Inv(bus.Abs()) && Enabled(bus.Abs(), TargetRespond(k))
      modifies this, bus
      ensures bus.Abs() == Next(old(bus.Abs()), TargetRespond(k))
    {
      hide Inv, Earliest;
      ghost var before := bus.Abs();
      var x := responseQueue[0].txn;
      responseQueue := responseQueue[1..];
      bus.log := bus.log + [Operated(x, k), Responded(x, k, bus.now)];
      awaiting := Some(x);
      var status := bus.TargetNbTransport(x, BeginResp, 0);
      assert status == Accepted;
      assert SimpleBusAT.States(bus.targets) == before.targets[k := Abs()];
    }

    /** The event END_RESP raises has fired: the response method runs again and first returns to its queue. */
    method EndRespRcvdFires(bus: SimpleBusAT, ghost k: nat)
      requires bus.Valid() && k < |bus.targets| && bus.targets[k] == this
      modifies this
      ensures bus.Abs() == DoFireEndRespRcvd(old(bus.Abs()), k)
    {
      ghost var before := bus.Abs();
      endRespRcvd, awaiting := None, None;
      assert SimpleBusAT.States(bus.targets) == before.targets[k := Abs()];
    }
  }

  class SimpleBusAT {
    const targets: seq<AtTarget1Phase>
    var now: nat
    var payload: map<Txn, Payload>
    var pendingTransactions: map<Txn, Connection>
    var requestQueue: Queue
    var responseQueue: Queue
    var requestThread: RequestThread
    var responseThread: ResponseThread
    var endRequestEvent: Option<nat>
    var endResponseEvent: Option<nat>
    var references: map<Txn, int>
    ghost var owing: map<Txn, nat>
    ghost var log: seq<Event>

    /** No two sockets are bound to the same target. */
    ghost predicate Valid() {
      forall i, j | 0 <= i < j < |targets| :: targets[i] != targets[j]
    }

    /** The states of the targets. */
    static ghost function States(targets: seq<AtTarget1Phase>): seq<Target> reads targets {
      seq(|targets|, k requires 0 <= k < |targets| reads targets => targets[k].Abs())
    }

    ghost function Abs(): State reads this, targets {
      State(now, payload, pendingTransactions, requestQueue, responseQueue, requestThread, responseThread,
            endRequestEvent, endResponseEvent, States(targets), owing, references, log, false)
    }

    constructor (targets: seq<AtTarget1Phase>)
      requires forall i, j | 0 <= i < j < |targets| :: targets[i] != targets[j]
      requires forall t | t in targets ::
                 t.Abs() == Target(t.config, 1, [], None, None) && t.config.readDelay > 0 && t.config.writeDelay > 0
      ensures Valid() && this.targets == targets && Initial(Abs()) && Inv(Abs())
    {
      this.targets := targets;
      now, payload, pendingTransactions, requestQueue, responseQueue := 0, map[], map[], [], [];
      requestThread, responseThread, endRequestEvent, endResponseEvent := ReqIdle, RespIdle, None, None;
      references, owing, log := map[], map[], [];
      new;
      InitialInv(Abs());
    }

    /** `initiatorNBTransport` with BEGIN_REQ, called by initiator `i` at time `at`; adds the pending transaction. */
    method InitiatorBeginReq(i: nat, x: Txn, p: Payload, delay: nat, at: nat) returns (status: Sync)
      requires x !in pendingTransactions
      modifies this
      ensures Abs() == DoRequest(old(Abs()), i, x, p, delay, at)
      ensures status == Accepted
    {
      hide Notify;
      ghost var before := Abs();
      // the assertion of addPendingTransaction
      assert x !in pendingTransactions;
      var acquired := references[x := (if x in references then references[x] else 0) + 1];
      now, payload, references, pendingTransactions, requestQueue, log :=
        at, payload[x := p], acquired, pendingTransactions[x := Connection(Some(i), None)],
        Notify(requestQueue, x, at + delay), log + [Asked(x, i, p, at, delay)];
      assert States(targets) == before.targets;
      status := Accepted;
    }

    /** `initiatorNBTransport` with END_RESP. */
    method InitiatorEndResp(x: Txn, delay: nat) returns (status: Sync)
      modifies this`owing, this`endResponseEvent, this`log
      ensures Abs() == DoInitiatorEndResp(old(Abs()), x, delay)
      ensures status == Completed
    {
      owing, log := owing - {x}, log + [Ended(x, now, delay)];
      endResponseEvent := Earliest(endResponseEvent, now + delay);
      status := Completed;
    }

    /** `targetNBTransport`. */
    method TargetNbTransport(x: Txn, phase: Phase, delay: nat) returns (status: Sync)
      requires phase == EndReq || phase == BeginResp
      modifies this`endRequestEvent, this`responseQueue
      ensures endRequestEvent == Earliest(old(endRequestEvent), now + delay)
      ensures responseQueue ==
              if phase == BeginResp then Notify(old(responseQueue), x, now + delay) else old(responseQueue)
      ensures status == Accepted
    {
      endRequestEvent := Earliest(endRequestEvent, now + delay);
      if phase == BeginResp {
        responseQueue := Notify(responseQueue, x, now + delay);
      }
      status := Accepted;
    }

    /** `RequestThread` takes the next request, passes it on and waits again. */
    method RequestThreadTakes()
      requires Valid() && requestThread.ReqIdle? && requestQueue != [] && ForwardReady(Abs())
      modifies this, targets
      ensures Abs() == DoForward(old(Abs()))
    {
      hide AfterForward, Mask, Decode, PassedOn;
      ghost var before := Abs();
      var x := requestQueue[0].txn;
      var portId := Decode(payload[x].address);
      // the assertions on the port and on the pending transaction
      assert portId < |targets| && x in pendingTransactions;
      var masked := payload[x].(address := Mask(payload[x].address));
      requestQueue, payload, pendingTransactions :=
        requestQueue[1..], payload[x := masked], pendingTransactions[x := pendingTransactions[x].(to := Some(portId))];
      var r := targets[portId].NbTransportFw(x, masked, BeginReq, now);
      log := log + PassedOn(x, portId, masked.address, now, r.status == Completed);
      assert States(targets) == before.targets[portId := targets[portId].Abs()];
      RequestThreadGoesOn(x, r);
    }

    /** What `RequestThread` does with the target's reply, for a reply of any kind that the code accepts. */
    method RequestThreadGoesOn(x: Txn, r: Reply)
      requires x in pendingTransactions && (r.status == Completed || r.phase != EndResp)
      modifies this
      ensures Abs() == AfterForward(old(Abs()), x, r)
    {
      match r.status {
        case Completed =>
          responseQueue := Notify(responseQueue, x, now + r.delay);
          pendingTransactions := pendingTransactions[x := pendingTransactions[x].(to := None)];
          requestThread := ReqPause(now + r.delay);
        case _ =>
          match r.phase {
            case BeginReq => requestThread := ReqEvent(x);
            case EndReq => requestThread := ReqEndReq(x, now + r.delay);
            case BeginResp => responseQueue := Notify(responseQueue, x, now + r.delay);
          }
      }
    }

    /** `RequestThread` wakes after a pause; if the target deferred, it tells the initiator END_REQ. */
    method RequestThreadWakes()
      requires Valid() && RequestWait(Abs()) && !requestThread.ReqIdle?
      modifies this`requestThread, this`log
      ensures Abs() == if old(requestThread).ReqPause? then old(Abs()).(req := ReqIdle) else DoSendEndReq(old(Abs()))
    {
      if requestThread.ReqEndReq? {
        var x := requestThread.txn;
        // the iterator is still good
        assert x in pendingTransactions;
        if pendingTransactions[x].from.Some? {
          log := log + [SentEndReq(x, pendingTransactions[x].from.value, now)];
        }
      }
      requestThread := ReqIdle;
    }

    /** `ResponseThread` takes the next response and sends BEGIN_RESP; `answer` is the initiator's. */
    method ResponseThreadTakes(answer: Answer)
      requires Valid() && responseThread.RespIdle? && responseQueue != [] && RespondReady(Abs())
      modifies this
      ensures Abs() == DoRespond(old(Abs()), answer)
    {
      hide States;
      var x := responseQueue[0].txn;
      assert x in pendingTransactions;
      var initiatorSocket := pendingTransactions[x].from;
      assert initiatorSocket.Some?;
      responseQueue, pendingTransactions, log, responseThread, owing :=
        responseQueue[1..], pendingTransactions[x := pendingTransactions[x].(from := None)],
        log + [SentResp(x, initiatorSocket.value, answer.Done?, now, Lasting(answer))],
        if answer.Done? then RespPause(x, now + answer.delay) else RespEvent(x),
        if answer.Done? then owing else owing[x := now + answer.after];
    }

    /** `ResponseThread` closes the transaction, with END_RESP to a target that waits for it. */
    method ResponseThreadCloses()
      requires Valid() && (responseThread.RespPause? || responseThread.RespGo?) && CloseReady(Abs())
      modifies this, targets
      ensures Abs() == DoClose(old(Abs()))
    {
      ghost var before := Abs();
      var x := responseThread.txn;
      assert x in pendingTransactions;
      var to := pendingTransactions[x].to;
      if to.Some? {
        var r := targets[to.value].NbTransportFw(x, payload[x], EndResp, now);
        assert r.status == Completed;
        log := log + [SentEndResp(x, to.value, now), Released(x, now)];
        assert States(targets) == before.targets[to.value := targets[to.value].Abs()];
      } else {
        log := log + [Released(x, now)];
        assert States(targets) == before.targets;
      }
      var released := references[x := (if x in references then references[x] else 0) - 1];
      pendingTransactions, references, responseThread := pendingTransactions - {x}, released, RespIdle;
    }

    /** The end-response event fires. */
    method EndResponseFires()
      requires Valid() && endResponseEvent.Some? && OneResponse(Abs())
      modifies this`endResponseEvent, this`responseThread
      ensures Abs() == DoFireEndResponse(old(Abs()))
      ensures old(responseThread).RespEvent? && responseThread.RespGo?
    {
      endResponseEvent := None;
      // the response thread waits for it, so the notification is not lost
      assert responseThread.RespEvent?;
      responseThread := RespGo(responseThread.txn);
    }

    /** The end-request event fires; the request thread never waits for it when the targets are of this kind. */
    method EndRequestFires()
      requires Valid() && RequestWait(Abs())
      modifies this`endRequestEvent
      ensures Abs() == DoFireEndRequest(old(Abs()))
    {
      endRequestEvent := None;
    }
  }
}
