/**
 The order of phases that section 15.2 of IEEE Std 1666-2011 asks for, written as an automaton that
 reads the calls about one transaction, and the proof that every run of the bus and its targets is
 accepted by it.
 */
module AtPhases {
  import opened AddressMap
  import opened Common
  import opened PayloadQueue
  import opened AtProtocol
  import opened AtInvariant

  /** How far one transaction has come, judged from the calls alone. */
  datatype Life =
    | Rest                                         // nobody is working on it
    | Requested(from: nat)                         // BEGIN_REQ received from socket `from`
    | Passed(from: nat, to: nat)                   // BEGIN_REQ passed to target `to`
    | Finished(from: nat, to: nat)                 // the target operated inside that call
    | Waiting(from: nat, to: nat, endReq: bool)    // the target deferred; END_REQ sent or not
    | Ran(from: nat, to: nat)                      // a deferred request was operated
    | Answered(from: nat, expecting: Option<nat>)  // the response is ready; a target still expects END_RESP
    | Responding(expecting: Option<nat>, owes: bool)    // BEGIN_RESP sent; the initiator owes END_RESP or not
    | Ending                                       // END_RESP passed to the target
    | Illegal

  function Move(l: Life, e: Event): Life {
    match e
    case Asked(_, i, _, _, _) => if l.Rest? then Requested(i) else Illegal
    case Sent(_, k, _, _) => if l.Requested? then Passed(l.from, k) else Illegal
    case Operated(_, k) =>
      if l.Passed? && l.to == k then Finished(l.from, k)
      else if l.Waiting? && l.to == k && l.endReq then Ran(l.from, k)
      else Illegal
    case Closed(_, k, _) => if l.Finished? && l.to == k then Answered(l.from, None) else Illegal
    case Deferred(_, k, _) => if l.Passed? && l.to == k then Waiting(l.from, k, false) else Illegal
    case SentEndReq(_, i, _) => if l.Waiting? && l.from == i && !l.endReq then l.(endReq := true) else Illegal
    case Responded(_, k, _) => if l.Ran? && l.to == k then Answered(l.from, Some(k)) else Illegal
    case SentResp(_, i, done, _, _) => if l.Answered? && l.from == i then Responding(l.expecting, !done) else Illegal
    case Ended(_, _, _) => if l.Responding? && l.owes then l.(owes := false) else Illegal
    case SentEndResp(_, k, _) => if l.Responding? && l.expecting == Some(k) && !l.owes then Ending else Illegal
    case Released(_, _) => if l.Ending? || l == Responding(None, false) then Rest else Illegal
  }

  function Step1(l: Life, e: Event, x: Txn): Life { if e.txn == x then Move(l, e) else l }

  /** The automaton after the whole log. */
  function Monitor(log: seq<Event>, x: Txn): Life {
    if log == [] then Rest else Step1(Monitor(log[..|log| - 1], x), log[|log| - 1], x)
  }

  lemma MonitorAppend(log: seq<Event>, e: Event, x: Txn)
    ensures Monitor(log + [e], x) == Step1(Monitor(log, x), e, x)
  {
    assert (log + [e])[..|log|] == log;
  }

  lemma MonitorAppend2(log: seq<Event>, e: Event, f: Event, x: Txn)
    ensures Monitor(log + [e, f], x) == Step1(Step1(Monitor(log, x), e, x), f, x)
  {
    hide Monitor, Step1;
    MonitorAppend(log, e, x);
    MonitorAppend(log + [e], f, x);
    assert log + [e, f] == log + [e] + [f];
  }

  lemma MonitorAppend3(log: seq<Event>, e: Event, f: Event, g: Event, x: Txn)
    ensures Monitor(log + [e, f, g], x) == Step1(Step1(Step1(Monitor(log, x), e, x), f, x), g, x)
  {
    hide Monitor, Step1;
    MonitorAppend2(log, e, f, x);
    MonitorAppend(log + [e, f], g, x);
    assert log + [e, f, g] == log + [e, f] + [g];
  }

  // ---------------------------------------------------------------- the automaton follows the state

  /** Where the automaton must be, judged from the state alone. */
  function Track(s: State, x: Txn): Life {
    if x !in s.pending then Rest else
    var c := s.pending[x];
    if InResponse(s, x) then Responding(c.to, x in s.owing)
    else if c.from.None? then Illegal
    else if Count(s.requests, x) > 0 then Requested(c.from.value)
    else if Count(s.responses, x) > 0 then Answered(c.from.value, c.to)
    else if c.to.None? then Illegal
    else Waiting(c.from.value, c.to.value, !SendsEndReq(s, x))
  }

  /** END_REQ is still to be sent. */
  predicate SendsEndReq(s: State, x: Txn) { s.req.ReqEndReq? && s.req.txn == x }

  predicate Followed(s: State, x: Txn) {
    Monitor(s.log, x) == Track(s, x)
  }

  /** What the automaton's place depends on. */
  lemma SameTrack(s: State, s': State, y: Txn)
    requires Count(s'.requests, y) == Count(s.requests, y) && Count(s'.responses, y) == Count(s.responses, y)
    requires SendsEndReq(s', y) <==> SendsEndReq(s, y)
    requires (y in s'.owing <==> y in s.owing) && (y in s'.pending <==> y in s.pending)
    requires y in s.pending ==> s'.pending[y] == s.pending[y]
    requires InResponse(s', y) <==> InResponse(s, y)
    ensures Track(s', y) == Track(s, y)
  {
    hide Count;
  }

  lemma RequestFollowed(s: State, i: nat, x: Txn, p: Payload, delay: nat, at: nat, y: Txn)
    requires Local(s, x, 0) && x !in s.pending && Followed(s, y)
    ensures Followed(DoRequest(s, i, x, p, delay, at), y)
  {
    hide Monitor, Count;
    NotifyCount(s.requests, x, at + delay, y);
    MonitorAppend(s.log, Asked(x, i, p, at, delay), y);
  }

  lemma ForwardCompletedFollowed(s: State, y: Txn)
    requires s.requests != [] && s.req.ReqIdle? && Completes(s)
    requires Local(s, s.requests[0].txn, 0) && Followed(s, s.requests[0].txn) && Followed(s, y)
    ensures Followed(DoForward(s), y)
  {
    hide Monitor, TargetWaits, Notify;
    var x := s.requests[0].txn;
    var k := Decode(s.payload[x].address);
    NotifyCount(s.responses, x, DoForward(s).req.until, y);
    var sent := Sent(x, k, Mask(s.payload[x].address), s.now);
    assert DoForward(s).log == s.log + [sent, Operated(x, k), Closed(x, k, s.now)];
    MonitorAppend3(s.log, sent, Operated(x, k), Closed(x, k, s.now), y);
  }

  lemma ForwardDeferredFollowed(s: State, y: Txn, k: nat)
    requires s.requests != [] && s.req.ReqIdle? && !Completes(s) && s.requests[0].txn in s.payload
    requires k == Decode(s.payload[s.requests[0].txn].address)
    requires Local(s, s.requests[0].txn, k) && Followed(s, y) && Followed(s, s.requests[0].txn)
    ensures Followed(DoForward(s), y)
  {
    hide Notify;
    var x := s.requests[0].txn;
    var s' := DoForward(s);
    var sent := Sent(x, k, Mask(s.payload[x].address), s.now);
    assert s'.log == s.log + [sent, Deferred(x, k, s.now)];
    MonitorAppend2(s.log, sent, Deferred(x, k, s.now), y);
    if y == x {
      assert Count(s'.requests, x) == 0 && Count(s'.responses, x) == 0;
    } else {
      SameTrack(s, s', y);
    }
  }

  lemma ForwardFollowed(s: State, y: Txn)
    requires Inv(s) && s.requests != [] && s.req.ReqIdle?
    requires Followed(s, y) && Followed(s, s.requests[0].txn)
    ensures Followed(DoForward(s), y)
  {
    hide Followed, TargetWaits, DoForward;
    var x := s.requests[0].txn;
    assert Local(s, x, 0);
    var k := Decode(s.payload[x].address);
    assert Local(s, x, k);
    if Completes(s) { ForwardCompletedFollowed(s, y); } else { ForwardDeferredFollowed(s, y, k); }
  }

  lemma SendEndReqFollowed(s: State, y: Txn)
    requires s.req.ReqEndReq? && RequestWait(s) && Local(s, s.req.txn, 0) && Followed(s, y)
    ensures Followed(DoSendEndReq(s), y)
  {
    var x := s.req.txn;
    assert s.pending[x].from.Some?;
    MonitorAppend(s.log, SentEndReq(x, s.pending[x].from.value, s.now), y);
  }

  lemma RespondFollowed(s: State, answer: Answer, y: Txn)
    requires s.responses != [] && s.resp.RespIdle? && OneResponse(s)
    requires Local(s, s.responses[0].txn, 0) && Followed(s, y)
    ensures Followed(DoRespond(s, answer), y)
  {
    hide Monitor;
    var x := s.responses[0].txn;
    assert y !in s.owing.Keys;
    MonitorAppend(s.log, SentResp(x, s.pending[x].from.value, answer.Done?, s.now, Lasting(answer)), y);
  }

  lemma InitiatorEndRespFollowed(s: State, x: Txn, delay: nat, y: Txn)
    requires x in s.owing && OneResponse(s) && Local(s, x, 0) && Followed(s, y)
    requires !s.resp.RespIdle? ==> Local(s, s.resp.txn, 0)
    ensures Followed(DoInitiatorEndResp(s, x, delay), y)
  {
    assert x in s.owing.Keys;
    assert x == s.resp.txn;
    MonitorAppend(s.log, Ended(x, s.now, delay), y);
  }

  lemma CloseTrack(s: State, y: Txn)
    requires s.resp.RespPause? || s.resp.RespGo?
    requires y != s.resp.txn && s.resp.txn in s.pending && Expected(s, s.resp.txn)
    ensures Track(DoClose(s), y) == Track(s, y)
  {
    hide Track, Held, Count;
    SameTrack(s, DoClose(s), y);
  }

  lemma CloseFollowed(s: State, y: Txn)
    requires s.resp.RespPause? || s.resp.RespGo?
    requires OneResponse(s) && Local(s, s.resp.txn, 0) && Followed(s, y)
    ensures Followed(DoClose(s), y)
  {
    hide Count, Monitor;
    var x := s.resp.txn;
    assert x !in s.owing.Keys;
    var s' := DoClose(s);
    match s.pending[x].to
    case None => MonitorAppend(s.log, Released(x, s.now), y);
    case Some(k) => MonitorAppend2(s.log, SentEndResp(x, k, s.now), Released(x, s.now), y);
    if y == x {
      assert x !in s'.pending;
    } else {
      CloseTrack(s, y);
    }
  }

  lemma TargetRespondFollowed(s: State, k: nat, y: Txn)
    requires k < |s.targets| && s.targets[k].queue != [] && s.targets[k].queue[0].due <= s.now
    requires Local(s, s.targets[k].queue[0].txn, k) && RequestWait(s) && Followed(s, y)
    ensures Followed(DoTargetRespond(s, k), y)
  {
    TargetHead(s, k);
    var x := s.targets[k].queue[0].txn;
    assert s.targets[k].queue[0] in s.targets[k].queue;
    NotifyCount(s.responses, x, s.now, y);
    MonitorAppend2(s.log, Operated(x, k), Responded(x, k, s.now), y);
  }

  /** A step that makes no call does not move the transaction either. */
  lemma QuietFollowed(s: State, s': State, y: Txn)
    requires s'.requests == s.requests && s'.responses == s.responses && s'.owing == s.owing && s'.log == s.log
    requires s'.pending == s.pending && (InResponse(s', y) <==> InResponse(s, y))
    requires s'.req == s.req || (!s'.req.ReqEndReq? && !s.req.ReqEndReq?)
    requires Followed(s, y)
    ensures Followed(s', y)
  {
    hide Monitor, Count;
  }

  lemma StepFollowed(s: State, step: Step, y: Txn)
    requires Inv(s) && Enabled(s, step)
    requires forall x: Txn :: Followed(s, x)
    ensures Followed(Next(s, step), y)
  {
    hide Followed, Placed, TargetWaits;
    assert Followed(s, y);
    match step
    case Request(i, x, p, delay, at) =>
      assert Local(s, x, 0);
      RequestFollowed(s, i, x, p, delay, at, y);
    case Forward => ForwardFollowed(s, y);
    case SendEndReq =>
      assert Local(s, s.req.txn, 0);
      SendEndReqFollowed(s, y);
    case Respond(answer) =>
      assert Local(s, s.responses[0].txn, 0);
      RespondFollowed(s, answer, y);
    case InitiatorEndResp(x, delay) =>
      assert Local(s, x, 0);
      assert Local(s, s.resp.txn, 0);
      InitiatorEndRespFollowed(s, x, delay, y);
    case Close =>
      assert Local(s, s.resp.txn, 0);
      CloseFollowed(s, y);
    case TargetRespond(k) =>
      assert Local(s, s.targets[k].queue[0].txn, k);
      TargetRespondFollowed(s, k, y);
    case _ => QuietFollowed(s, Next(s, step), y);
  }

  lemma {:induction false} RunFollowed(s: State, steps: seq<Step>, s': State)
    requires Inv(s) && Runs(s, steps, s')
    requires forall x: Txn :: Followed(s, x)
    ensures forall x: Txn :: Followed(s', x)
    decreases |steps|
  {
    if steps != [] {
      forall x: Txn ensures Followed(Next(s, steps[0]), x) {
        StepFollowed(s, steps[0], x);
      }
      StepKeeps(s, steps[0]);
      RunFollowed(Next(s, steps[0]), steps[1..], s');
    }
  }

  /**
   Over every run and for every transaction, the calls follow the order of phases; and the place of the
   transaction in the model tells exactly how far it has come.
   */
  lemma PhasesInOrder(s: State, x: Txn)
    requires Reachable(s)
    ensures Monitor(s.log, x) != Illegal
    ensures Monitor(s.log, x) == Track(s, x)
  {
    var s0, steps :| Initial(s0) && Runs(s0, steps, s);
    InitialInv(s0);
    RunKeeps(s0, steps, s);
    RunFollowed(s0, steps, s);
    assert Followed(s, x) && Local(s, x, 0);
    if x in s.pending && s.pending[x].to.Some? {
      assert Local(s, x, s.pending[x].to.value);
    }
  }
}
