/**
 When each call happens, and which address a target sees, worked out from the calls alone: every delay that a caller
 annotates or a target is configured with passes, no more and no less, and a thread that is free does not wait.
 */
module AtTiming {
  import opened AddressMap
  import opened Common
  import opened PayloadQueue
  import opened AtProtocol
  import opened AtInvariant

  function Max(a: nat, b: nat): nat { if a < b then b else a }

  /** What the calls so far say about one transaction: its last request, when it goes on, and when END_REQ is due. */
  datatype Due = Due(asked: Option<Payload>, ready: nat, endReq: nat)

  function OperationTime(c: Config, p: Payload): nat { if p.read then c.readDelay else c.writeDelay }

  /** The time a target takes that answers at once; an access that does not fit takes no operation time. */
  function ImmediateTime(c: Config, p: Payload): nat {
    c.accept + if p.address % 0x1000_0000 + p.length < c.size then OperationTime(c, p) else 0
  }

  function Follow(d: Due, e: Event, configs: seq<Config>): Due {
    match e
    case Asked(_, _, p, at, delay) => d.(asked := Some(p), ready := at + delay)
    case Sent(_, _, _, at) => d.(ready := at)
    case Closed(_, k, at) =>
      if k < |configs| && d.asked.Some? then d.(ready := at + ImmediateTime(configs[k], d.asked.value)) else d
    case Deferred(_, k, at) =>
      if k < |configs| && d.asked.Some? then
        d.(ready := at + configs[k].accept + OperationTime(configs[k], d.asked.value), endReq := at + configs[k].accept)
      else d
    case Responded(_, _, at) => d.(ready := at)
    case SentResp(_, _, _, at, delay) => d.(ready := at + delay)
    case Ended(_, at, delay) => d.(ready := at + delay)
    case _ => d
  }

  function Plan(log: seq<Event>, configs: seq<Config>, x: Txn): Due {
    if log == [] then Due(None, 0, 0)
    else
      var d := Plan(log[..|log| - 1], configs, x);
      if log[|log| - 1].txn == x then Follow(d, log[|log| - 1], configs) else d
  }

  /** Since when the request thread is free again. */
  function RequestFree(log: seq<Event>, configs: seq<Config>): nat {
    if log == [] then 0
    else match log[|log| - 1]
      case Closed(x, _, _) => Plan(log, configs, x).ready
      case Deferred(x, _, _) => Plan(log, configs, x).endReq
      case _ => RequestFree(log[..|log| - 1], configs)
  }

  /** Since when the response thread is free again. */
  function ResponseFree(log: seq<Event>): nat {
    if log == [] then 0
    else match log[|log| - 1]
      case Released(_, at) => at
      case _ => ResponseFree(log[..|log| - 1])
  }

  /** Since when the response method of target `k` is free again. */
  function TargetFree(log: seq<Event>, k: nat): nat {
    if log == [] then 0
    else match log[|log| - 1]
      case SentEndResp(_, j, at) => if j == k then at else TargetFree(log[..|log| - 1], k)
      case _ => TargetFree(log[..|log| - 1], k)
  }

  /** The last call comes when it must, and a request goes to the port and with the address that its initiator named. */
  predicate OnTime(log: seq<Event>, e: Event, configs: seq<Config>) {
    var d := Plan(log, configs, e.txn);
    match e
    case Sent(_, k, address, at) =>
      && d.asked.Some?
      && k == (d.asked.value.address % 0x1_0000_0000) / 0x1000_0000
      && address == d.asked.value.address % 0x1000_0000
      && at == Max(d.ready, RequestFree(log, configs))
    case Closed(_, _, at) => at == d.ready
    case Deferred(_, _, at) => at == d.ready
    case SentEndReq(_, _, at) => at == d.endReq
    case Responded(_, k, at) => at == Max(d.ready, TargetFree(log, k))
    case SentResp(_, _, _, at, _) => at == Max(d.ready, ResponseFree(log))
    case Ended(_, at, _) => at == d.ready
    case SentEndResp(_, _, at) => at == d.ready
    case Released(_, at) => at == d.ready
    case _ => true
  }

  predicate Timely(log: seq<Event>, configs: seq<Config>) {
    log == [] || (Timely(log[..|log| - 1], configs) && OnTime(log[..|log| - 1], log[|log| - 1], configs))
  }

  lemma Append(log: seq<Event>, e: Event, cs: seq<Config>, x: Txn, k: nat)
    ensures Plan(log + [e], cs, x) == if e.txn == x then Follow(Plan(log, cs, x), e, cs) else Plan(log, cs, x)
    ensures RequestFree(log + [e], cs) ==
      match e
      case Closed(y, _, _) => Follow(Plan(log, cs, y), e, cs).ready
      case Deferred(y, _, _) => Follow(Plan(log, cs, y), e, cs).endReq
      case _ => RequestFree(log, cs)
    ensures ResponseFree(log + [e]) == if e.Released? then e.at else ResponseFree(log)
    ensures TargetFree(log + [e], k) == if e.SentEndResp? && e.to == k then e.at else TargetFree(log, k)
    ensures Timely(log + [e], cs) <==> Timely(log, cs) && OnTime(log, e, cs)
  {
    assert (log + [e])[..|log|] == log;
  }

  // ---------------------------------------------------------------- where the state must stand

  /** Every entry for the transaction is due at time `t`. */
  ghost predicate Only(q: Queue, x: Txn, t: nat) {
    forall e | e in q && e.txn == x :: e.due == t
  }

  predicate RespondsAt(s: State, x: Txn, t: nat) {
    match s.resp
    case RespIdle => true
    case RespPause(y, until) => y == x ==> until == t
    case RespEvent(y) => y == x ==> if x in s.owing then s.owing[x] == t else s.endResponse == Some(t)
    case RespGo(y) => y == x ==> s.now == t
  }

  /** What the plan of one transaction says about the state, as far as target `j` is concerned. */
  ghost predicate Planned(s: State, cs: seq<Config>, x: Txn, j: nat) {
    var d := Plan(s.log, cs, x);
    && Only(s.requests, x, d.ready) && Only(s.responses, x, d.ready)
    && (j < |s.targets| ==> Only(s.targets[j].queue, x, d.ready))
    && RespondsAt(s, x, d.ready)
    && (s.req.ReqEndReq? && s.req.txn == x ==> s.req.until == d.endReq)
    && (x in s.pending ==> d.asked.Some?)
    && (Count(s.requests, x) > 0 ==> x in s.payload && d.asked == Some(s.payload[x]))
  }

  /** The two threads have not let a due time pass. */
  ghost predicate ThreadsOn(s: State, cs: seq<Config>) {
    && (match s.req
        case ReqIdle =>
          && RequestFree(s.log, cs) <= s.now
          && (s.requests != [] ==> s.now <= Max(s.requests[0].due, RequestFree(s.log, cs)))
        case ReqPause(until) => s.now <= until == RequestFree(s.log, cs)
        case ReqEndReq(_, until) => s.now <= until == RequestFree(s.log, cs)
        case ReqEvent(_) => false)
    && (match s.resp
        case RespIdle =>
          && ResponseFree(s.log) <= s.now
          && (s.responses != [] ==> s.now <= Max(s.responses[0].due, ResponseFree(s.log)))
        case RespPause(_, until) => s.now <= until
        case _ => true)
    && (s.endResponse.Some? ==> s.now <= s.endResponse.value)
    && (forall x | x in s.owing :: s.now <= s.owing[x])
  }

  predicate TargetOn(s: State, cs: seq<Config>, j: nat) {
    |cs| == |s.targets| &&
    (j < |cs| ==>
      var t := s.targets[j];
      && t.config == cs[j]
      && (t.endRespRcvd.Some? ==> t.endRespRcvd.value == TargetFree(s.log, j) == s.now)
      && (t.awaiting.None? ==>
            && TargetFree(s.log, j) <= s.now
            && (t.queue != [] ==> s.now <= Max(t.queue[0].due, TargetFree(s.log, j)))))
  }

  // ---------------------------------------------------------------- queues

  lemma NoneOnly(q: Queue, x: Txn, t: nat)
    requires Count(q, x) == 0
    ensures Only(q, x, t)
  {
    CountEntry(q, x);
  }

  lemma NotifyOnly(q: Queue, x: Txn, due: nat, y: Txn, t: nat)
    requires Only(q, y, t) && (x == y ==> due == t)
    ensures Only(Notify(q, x, due), y, t)
  {
    NotifyEntries(q, x, due);
  }

  /** The head after scheduling is the old one or the new entry. */
  lemma NotifyHead(q: Queue, x: Txn, due: nat)
    ensures Notify(q, x, due) != []
    ensures Notify(q, x, due)[0] == if q == [] || due < q[0].due then Entry(due, x) else q[0]
  {
  }

  // ---------------------------------------------------------------- each step

  lemma RequestPlanned(s: State, cs: seq<Config>, i: nat, x: Txn, p: Payload, delay: nat, at: nat, y: Txn, j: nat)
    requires Local(s, x, j) && x !in s.pending && Planned(s, cs, y, j) && (s.resp.RespGo? ==> at == s.now)
    ensures Planned(DoRequest(s, i, x, p, delay, at), cs, y, j)
  {
    hide Notify;
    Append(s.log, Asked(x, i, p, at, delay), cs, y, j);
    NotifyCount(s.requests, x, at + delay, y);
    if x == y {
      NoneOnly(s.requests, x, at + delay);
      NoneOnly(s.responses, x, at + delay);
      if j < |s.targets| { NoneOnly(s.targets[j].queue, x, at + delay); }
    }
    NotifyOnly(s.requests, x, at + delay, y, Plan(DoRequest(s, i, x, p, delay, at).log, cs, y).ready);
  }

  /** The calls that passing a request on makes. */
  lemma ForwardLog(s: State, x: Txn, k: nat)
    requires s.requests != [] && x == s.requests[0].txn && x in s.payload && x in s.pending
    requires k == Decode(s.payload[x].address) < |s.targets|
    ensures var sent := s.log + [Sent(x, k, Mask(s.payload[x].address), s.now)];
      DoForward(s).log == if Completes(s) then sent + [Operated(x, k)] + [Closed(x, k, s.now)]
                          else sent + [Deferred(x, k, s.now)]
  {
    hide Notify;
  }

  /** The plan after these calls. */
  lemma SentPlan(log: seq<Event>, cs: seq<Config>, x: Txn, k: nat, address: nat, at: nat, y: Txn)
    requires k < |cs| && Plan(log, cs, x).asked.Some?
    ensures var p := Plan(log, cs, x).asked.value;
      var d := Plan(log, cs, y);
      var sent := log + [Sent(x, k, address, at)];
      && Plan(sent + [Operated(x, k)] + [Closed(x, k, at)], cs, y)
           == (if x == y then d.(ready := at + ImmediateTime(cs[k], p)) else d)
      && Plan(sent + [Deferred(x, k, at)], cs, y)
           == (if x == y then d.(ready := at + cs[k].accept + OperationTime(cs[k], p), endReq := at + cs[k].accept)
               else d)
  {
    var sent := log + [Sent(x, k, address, at)];
    Append(log, Sent(x, k, address, at), cs, y, k);
    Append(sent, Operated(x, k), cs, y, k);
    Append(sent + [Operated(x, k)], Closed(x, k, at), cs, y, k);
    Append(sent, Deferred(x, k, at), cs, y, k);
  }

  lemma PopOnly(q: Queue, x: Txn, t: nat)
    requires q != [] && Only(q, x, t)
    ensures Only(q[1..], x, t)
  {
  }

  lemma ForwardCompletedPlanned(s: State, cs: seq<Config>, k: nat, y: Txn, j: nat)
    requires s.requests != [] && s.req.ReqIdle? && Completes(s)
    requires Local(s, s.requests[0].txn, k) && Local(s, s.requests[0].txn, j)
    requires Planned(s, cs, s.requests[0].txn, k) && Planned(s, cs, y, j)
    requires k == Decode(s.payload[s.requests[0].txn].address) < |s.targets| && TargetOn(s, cs, k)
    ensures Planned(DoForward(s), cs, y, j)
  {
    hide PassedOn, Notify, Plan, Only;
    var x := s.requests[0].txn;
    var s' := DoForward(s);
    assert Count(s.requests, x) > 0;
    ForwardLog(s, x, k);
    SentPlan(s.log, cs, x, k, Mask(s.payload[x].address), s.now, y);
    PopOnly(s.requests, y, Plan(s.log, cs, y).ready);
    if x == y {
      NoneOnly(s.requests[1..], x, s'.req.until);
      NoneOnly(s.responses, x, s'.req.until);
      if j < |s.targets| { NoneOnly(s'.targets[j].queue, x, s'.req.until); }
    }
    NotifyOnly(s.responses, x, s'.req.until, y, Plan(s'.log, cs, y).ready);
  }

  lemma ForwardDeferredPlanned(s: State, cs: seq<Config>, k: nat, y: Txn, j: nat)
    requires s.requests != [] && s.req.ReqIdle? && !Completes(s)
    requires Local(s, s.requests[0].txn, k) && Local(s, s.requests[0].txn, j)
    requires Planned(s, cs, s.requests[0].txn, k) && Planned(s, cs, y, j)
    requires k == Decode(s.payload[s.requests[0].txn].address) < |s.targets| && TargetOn(s, cs, k)
    ensures Planned(DoForward(s), cs, y, j)
  {
    hide PassedOn, Notify, Plan, Only;
    var x := s.requests[0].txn;
    var s' := DoForward(s);
    var due := s.now + OperationDelay(s.targets[k].config, s.payload[x]) + s.targets[k].config.accept;
    assert Count(s.requests, x) > 0;
    ForwardLog(s, x, k);
    SentPlan(s.log, cs, x, k, Mask(s.payload[x].address), s.now, y);
    PopOnly(s.requests, y, Plan(s.log, cs, y).ready);
    if x == y {
      NoneOnly(s.requests[1..], x, due);
      NoneOnly(s.responses, x, due);
      if j < |s.targets| { NoneOnly(s.targets[j].queue, x, due); }
    }
    if j == k { NotifyOnly(s.targets[k].queue, x, due, y, Plan(s'.log, cs, y).ready); }
  }

  /** A step that moves no transaction and leaves the plan of this one alone. */
  lemma QuietPlanned(s: State, s': State, cs: seq<Config>, y: Txn, j: nat)
    requires Planned(s, cs, y, j) && Plan(s'.log, cs, y) == Plan(s.log, cs, y)
    requires s'.requests == s.requests && s'.responses == s.responses && |s'.targets| == |s.targets|
    requires j < |s.targets| ==> s'.targets[j].queue == s.targets[j].queue
    requires s'.pending == s.pending && s'.payload == s.payload
    requires s'.req == s.req || !s'.req.ReqEndReq?
    requires RespondsAt(s', y, Plan(s.log, cs, y).ready)
    ensures Planned(s', cs, y, j)
  {
    hide Plan, Only, Count, RespondsAt;
  }

  lemma SendEndReqPlanned(s: State, cs: seq<Config>, y: Txn, j: nat)
    requires s.req.ReqEndReq? && RequestWait(s) && Planned(s, cs, y, j)
    ensures Planned(DoSendEndReq(s), cs, y, j)
  {
    hide Plan, Only, Timely, Count, OnlyAfter;
    var x := s.req.txn;
    if s.pending[x].from.Some? {
      Append(s.log, SentEndReq(x, s.pending[x].from.value, s.now), cs, y, j);
    } else {
      assert DoSendEndReq(s).log == s.log;
    }
    QuietPlanned(s, DoSendEndReq(s), cs, y, j);
  }

  lemma RespondPlanned(s: State, answer: Answer, cs: seq<Config>, y: Txn, j: nat)
    requires s.responses != [] && s.resp.RespIdle? && OneResponse(s)
    requires Local(s, s.responses[0].txn, j) && Planned(s, cs, y, j)
    ensures Planned(DoRespond(s, answer), cs, y, j)
  {
    hide Only, Plan, Timely;
    var x := s.responses[0].txn;
    var t := s.now + Lasting(answer);
    Append(s.log, SentResp(x, s.pending[x].from.value, answer.Done?, s.now, Lasting(answer)), cs, y, j);
    PopOnly(s.responses, y, Plan(s.log, cs, y).ready);
    if x == y {
      NoneOnly(s.requests, x, t);
      NoneOnly(s.responses[1..], x, t);
      if j < |s.targets| { NoneOnly(s.targets[j].queue, x, t); }
    }
  }

  lemma InitiatorEndRespPlanned(s: State, x: Txn, delay: nat, cs: seq<Config>, y: Txn, j: nat)
    requires x in s.owing && OneResponse(s) && Local(s, s.resp.txn, j) && Planned(s, cs, y, j)
    ensures Planned(DoInitiatorEndResp(s, x, delay), cs, y, j)
  {
    hide Only, Plan, Timely, TargetWaits, Expected;
    assert x in s.owing.Keys;
    Append(s.log, Ended(x, s.now, delay), cs, y, j);
    if x == y { RespondingAlone(s, x, s.now + delay, j); }
  }

  /** A transaction in the response thread is in no queue. */
  lemma RespondingAlone(s: State, x: Txn, t: nat, j: nat)
    requires InResponse(s, x) && Local(s, x, j)
    ensures Only(s.requests, x, t) && Only(s.responses, x, t) && Count(s.requests, x) == 0
    ensures j < |s.targets| ==> Only(s.targets[j].queue, x, t)
  {
    hide Only;
    NoneOnly(s.requests, x, t);
    NoneOnly(s.responses, x, t);
    if j < |s.targets| { NoneOnly(s.targets[j].queue, x, t); }
  }

  lemma ClosePlanned(s: State, cs: seq<Config>, y: Txn, j: nat)
    requires (s.resp.RespPause? || s.resp.RespGo?) && Local(s, s.resp.txn, j) && Planned(s, cs, y, j)
    ensures Planned(DoClose(s), cs, y, j)
  {
    hide Only, Notify, Plan, Timely;
    var x := s.resp.txn;
    match s.pending[x].to
    case None => Append(s.log, Released(x, s.now), cs, y, j);
    case Some(k) =>
      Append(s.log, SentEndResp(x, k, s.now), cs, y, j);
      Append(s.log + [SentEndResp(x, k, s.now)], Released(x, s.now), cs, y, j);
      assert DoClose(s).log == s.log + [SentEndResp(x, k, s.now)] + [Released(x, s.now)];
  }

  lemma TargetRespondPlanned(s: State, k: nat, cs: seq<Config>, y: Txn, j: nat)
    requires k < |s.targets| && s.targets[k].queue != []
    requires Local(s, s.targets[k].queue[0].txn, k) && Local(s, s.targets[k].queue[0].txn, j)
    requires Planned(s, cs, y, j)
    ensures Planned(DoTargetRespond(s, k), cs, y, j)
  {
    hide Only, Notify, Plan, Timely;
    var x := s.targets[k].queue[0].txn;
    var s' := DoTargetRespond(s, k);
    Append(s.log, Operated(x, k), cs, y, j);
    Append(s.log + [Operated(x, k)], Responded(x, k, s.now), cs, y, j);
    assert s'.log == s.log + [Operated(x, k)] + [Responded(x, k, s.now)];
    if j == k { PopOnly(s.targets[k].queue, y, Plan(s.log, cs, y).ready); }
    if x == y {
      NoneOnly(s.requests, x, s.now);
      NoneOnly(s.responses, x, s.now);
      if j < |s.targets| { NoneOnly(s'.targets[j].queue, x, s.now); }
    }
    NotifyOnly(s.responses, x, s.now, y, Plan(s'.log, cs, y).ready);
  }

  // ---------------------------------------------------------------- the threads and the targets stay on time

  lemma NotPassed(s: State, at: nat, u: nat)
    requires NothingBefore(s, at)
    ensures Scheduled(s, u) ==> at <= u
  {
  }

  /** Time that moves only to where nothing is due before lets no due time pass. */
  lemma TimeMoves(s: State, cs: seq<Config>, at: nat, j: nat)
    requires ThreadsOn(s, cs) && TargetOn(s, cs, j) && s.now <= at && (s.now < at ==> NothingBefore(s, at))
    ensures ThreadsOn(s.(now := at), cs) && TargetOn(s.(now := at), cs, j)
    ensures s.resp.RespGo? ==> at == s.now
  {
    hide RequestFree, ResponseFree, TargetFree, NothingBefore;
    if s.now < at {
      match s.req {
        case ReqIdle => if s.requests != [] { NotPassed(s, at, s.requests[0].due); }
        case ReqPause(until) => NotPassed(s, at, until);
        case ReqEndReq(_, until) => NotPassed(s, at, until);
        case ReqEvent(_) =>
      }
      match s.resp {
        case RespIdle => if s.responses != [] { NotPassed(s, at, s.responses[0].due); }
        case RespPause(_, until) => NotPassed(s, at, until);
        case RespGo(_) => NotPassed(s, at, s.now);
        case RespEvent(_) =>
      }
      if s.endResponse.Some? { NotPassed(s, at, s.endResponse.value); }
      forall x | x in s.owing ensures at <= s.owing[x] { NotPassed(s, at, s.owing[x]); }
      if j < |s.targets| { TargetTimeMoves(s, at, j); }
    }
  }

  lemma TargetTimeMoves(s: State, at: nat, j: nat)
    requires NothingBefore(s, at) && j < |s.targets|
    ensures s.targets[j].endRespRcvd.Some? ==> at <= s.targets[j].endRespRcvd.value
    ensures s.targets[j].awaiting.None? && s.targets[j].queue != [] ==> at <= s.targets[j].queue[0].due
  {
    var t := s.targets[j];
    if t.endRespRcvd.Some? {
      assert TargetAt(t, t.endRespRcvd.value);
      NotPassed(s, at, t.endRespRcvd.value);
    }
    if t.awaiting.None? && t.queue != [] {
      assert TargetAt(t, t.queue[0].due);
      NotPassed(s, at, t.queue[0].due);
    }
  }

  ghost predicate OnTrack(s: State, cs: seq<Config>, j: nat) {
    Timely(s.log, cs) && ThreadsOn(s, cs) && TargetOn(s, cs, j)
  }

  lemma RequestOnTrack(s: State, cs: seq<Config>, i: nat, x: Txn, p: Payload, delay: nat, at: nat, j: nat)
    requires x !in s.pending && OnTrack(s.(now := at), cs, j)
    ensures OnTrack(DoRequest(s, i, x, p, delay, at), cs, j)
  {
    hide Notify, Plan, Timely, RequestFree, ResponseFree, TargetFree;
    Append(s.log, Asked(x, i, p, at, delay), cs, x, j);
    NotifyHead(s.requests, x, at + delay);
  }

  /** The calls of a request that is passed on come when they must, and the request thread is busy for that long. */
  lemma SentTimely(log: seq<Event>, cs: seq<Config>, x: Txn, k: nat, address: nat, at: nat, j: nat)
    requires k < |cs| && Timely(log, cs) && OnTime(log, Sent(x, k, address, at), cs)
    ensures var p := Plan(log, cs, x).asked.value;
      var sent := log + [Sent(x, k, address, at)];
      var closed := sent + [Operated(x, k)] + [Closed(x, k, at)];
      var deferred := sent + [Deferred(x, k, at)];
      && Timely(closed, cs) && Timely(deferred, cs)
      && RequestFree(closed, cs) == at + ImmediateTime(cs[k], p) && RequestFree(deferred, cs) == at + cs[k].accept
      && ResponseFree(closed) == ResponseFree(deferred) == ResponseFree(log)
      && TargetFree(closed, j) == TargetFree(deferred, j) == TargetFree(log, j)
  {
    hide Plan, Timely, RequestFree, ResponseFree, TargetFree;
    var sent := log + [Sent(x, k, address, at)];
    Append(log, Sent(x, k, address, at), cs, x, j);
    Append(sent, Operated(x, k), cs, x, j);
    Append(sent + [Operated(x, k)], Closed(x, k, at), cs, x, j);
    Append(sent, Deferred(x, k, at), cs, x, j);
  }

  lemma ForwardOnTime(s: State, cs: seq<Config>, k: nat)
    requires s.requests != [] && s.req.ReqIdle? && s.requests[0].due <= s.now
    requires Local(s, s.requests[0].txn, k) && Planned(s, cs, s.requests[0].txn, k) && ThreadsOn(s, cs)
    requires k == Decode(s.payload[s.requests[0].txn].address)
    ensures var x := s.requests[0].txn;
      OnTime(s.log, Sent(x, k, Mask(s.payload[x].address), s.now), cs)
  {
    hide Notify, Plan, RequestFree, ResponseFree;
    assert Count(s.requests, s.requests[0].txn) > 0;
    assert s.requests[0] in s.requests;
  }

  lemma ForwardCompletedOnTrack(s: State, cs: seq<Config>, k: nat, j: nat)
    requires s.requests != [] && s.req.ReqIdle? && s.requests[0].due <= s.now && Completes(s)
    requires Local(s, s.requests[0].txn, k) && Planned(s, cs, s.requests[0].txn, k)
    requires k == Decode(s.payload[s.requests[0].txn].address) < |s.targets|
    requires OnTrack(s, cs, j) && TargetOn(s, cs, k)
    ensures OnTrack(DoForward(s), cs, j)
  {
    hide Notify, Plan, Timely, RequestFree, ResponseFree, TargetFree, OnTime, Only;
    var x := s.requests[0].txn;
    assert Count(s.requests, x) > 0;
    ForwardOnTime(s, cs, k);
    ForwardLog(s, x, k);
    SentTimely(s.log, cs, x, k, Mask(s.payload[x].address), s.now, j);
    NotifyHead(s.responses, x, DoForward(s).req.until);
  }

  lemma ForwardDeferredOnTrack(s: State, cs: seq<Config>, k: nat, j: nat)
    requires s.requests != [] && s.req.ReqIdle? && s.requests[0].due <= s.now && !Completes(s)
    requires Local(s, s.requests[0].txn, k) && Planned(s, cs, s.requests[0].txn, k)
    requires k == Decode(s.payload[s.requests[0].txn].address) < |s.targets|
    requires OnTrack(s, cs, j) && TargetOn(s, cs, k)
    ensures OnTrack(DoForward(s), cs, j)
  {
    hide Notify, Plan, Timely, RequestFree, ResponseFree, TargetFree, OnTime, Only;
    var x := s.requests[0].txn;
    assert Count(s.requests, x) > 0;
    ForwardOnTime(s, cs, k);
    ForwardLog(s, x, k);
    SentTimely(s.log, cs, x, k, Mask(s.payload[x].address), s.now, j);
    var t := s.targets[k];
    NotifyHead(t.queue, x, s.now + OperationDelay(t.config, s.payload[x]) + t.config.accept);
  }

  lemma SendEndReqOnTrack(s: State, cs: seq<Config>, j: nat)
    requires s.req.ReqEndReq? && s.req.until <= s.now && RequestWait(s)
    requires Planned(s, cs, s.req.txn, j) && OnTrack(s, cs, j)
    ensures OnTrack(DoSendEndReq(s), cs, j)
  {
    hide Plan, Timely, RequestFree, ResponseFree, TargetFree, Only;
    var x := s.req.txn;
    if s.pending[x].from.Some? {
      Append(s.log, SentEndReq(x, s.pending[x].from.value, s.now), cs, x, j);
    } else {
      assert DoSendEndReq(s).log == s.log;
    }
  }

  lemma RespondOnTrack(s: State, answer: Answer, cs: seq<Config>, j: nat)
    requires s.responses != [] && s.resp.RespIdle? && s.responses[0].due <= s.now && OneResponse(s)
    requires Local(s, s.responses[0].txn, j) && Planned(s, cs, s.responses[0].txn, j) && OnTrack(s, cs, j)
    ensures OnTrack(DoRespond(s, answer), cs, j)
  {
    hide Plan, Timely, RequestFree, ResponseFree, TargetFree;
    var x := s.responses[0].txn;
    assert s.responses[0] in s.responses;
    Append(s.log, SentResp(x, s.pending[x].from.value, answer.Done?, s.now, Lasting(answer)), cs, x, j);
  }

  lemma InitiatorEndRespOnTrack(s: State, x: Txn, delay: nat, cs: seq<Config>, j: nat)
    requires x in s.owing && s.owing[x] <= s.now && OneResponse(s) && Planned(s, cs, x, j) && OnTrack(s, cs, j)
    ensures OnTrack(DoInitiatorEndResp(s, x, delay), cs, j)
  {
    hide Plan, Timely, RequestFree, ResponseFree, TargetFree, Only;
    assert x in s.owing.Keys;
    Append(s.log, Ended(x, s.now, delay), cs, x, j);
  }

  lemma CloseOnTrack(s: State, cs: seq<Config>, j: nat)
    requires (s.resp.RespPause? && s.resp.until <= s.now) || s.resp.RespGo?
    requires Local(s, s.resp.txn, j) && Planned(s, cs, s.resp.txn, j) && OnTrack(s, cs, j) && OneResponse(s)
    ensures OnTrack(DoClose(s), cs, j)
  {
    hide Plan, Timely, RequestFree, ResponseFree, TargetFree, Only;
    var x := s.resp.txn;
    match s.pending[x].to
    case None => Append(s.log, Released(x, s.now), cs, x, j);
    case Some(k) =>
      Append(s.log, SentEndResp(x, k, s.now), cs, x, j);
      Append(s.log + [SentEndResp(x, k, s.now)], Released(x, s.now), cs, x, j);
      assert DoClose(s).log == s.log + [SentEndResp(x, k, s.now)] + [Released(x, s.now)];
  }

  lemma TargetRespondOnTrack(s: State, k: nat, cs: seq<Config>, j: nat)
    requires k < |s.targets| && s.targets[k].queue != [] && s.targets[k].queue[0].due <= s.now
    requires s.targets[k].awaiting.None? && (s.targets[k].endRespRcvd.Some? ==> s.targets[k].awaiting.Some?)
    requires Planned(s, cs, s.targets[k].queue[0].txn, k) && OnTrack(s, cs, j) && TargetOn(s, cs, k)
    ensures OnTrack(DoTargetRespond(s, k), cs, j)
  {
    hide Plan, Timely, RequestFree, ResponseFree, TargetFree, Notify;
    var x := s.targets[k].queue[0].txn;
    assert s.targets[k].queue[0] in s.targets[k].queue;
    Append(s.log, Operated(x, k), cs, x, k);
    Append(s.log, Operated(x, k), cs, x, j);
    Append(s.log + [Operated(x, k)], Responded(x, k, s.now), cs, x, j);
    assert DoTargetRespond(s, k).log == s.log + [Operated(x, k)] + [Responded(x, k, s.now)];
    NotifyHead(s.responses, x, s.now);
  }

  // ---------------------------------------------------------------- runs

  ghost predicate Scheduling(s: State, cs: seq<Config>) {
    && Inv(s)
    && (forall x: Txn, j: nat :: Planned(s, cs, x, j))
    && (forall j: nat :: OnTrack(s, cs, j))
  }

  lemma ForwardPlanned(s: State, cs: seq<Config>, y: Txn, j: nat)
    requires Scheduling(s, cs) && Enabled(s, Forward)
    ensures Planned(DoForward(s), cs, y, j)
  {
    hide Planned, OnTrack, DoForward, Placed, TargetWaits;
    var x := s.requests[0].txn;
    ForwardReady(s);
    var k := Decode(s.payload[x].address);
    assert Local(s, x, k) && Local(s, x, j) && Planned(s, cs, x, k) && Planned(s, cs, y, j) && OnTrack(s, cs, k);
    TrackTarget(s, cs, k);
    if Completes(s) { ForwardCompletedPlanned(s, cs, k, y, j); } else { ForwardDeferredPlanned(s, cs, k, y, j); }
  }

  lemma ForwardReady(s: State)
    requires Inv(s) && s.requests != []
    ensures var x := s.requests[0].txn;
      x in s.payload && x in s.pending && Decode(s.payload[x].address) < |s.targets|
  {
    assert Local(s, s.requests[0].txn, 0);
  }

  lemma TrackTarget(s: State, cs: seq<Config>, j: nat)
    requires OnTrack(s, cs, j)
    ensures TargetOn(s, cs, j) && ThreadsOn(s, cs)
  {
  }

  lemma StepPlanned(s: State, cs: seq<Config>, step: Step, y: Txn, j: nat)
    requires Scheduling(s, cs) && Enabled(s, step)
    ensures Planned(Next(s, step), cs, y, j)
  {
    hide Placed, TargetWaits, OnlySentTo, Plan, Only, Count, DoRequest, DoForward, DoRespond, DoClose, DoTargetRespond,
      DoSendEndReq, DoInitiatorEndResp;
    assert Planned(s, cs, y, j) && OnTrack(s, cs, j);
    match step
    case Request(i, x, p, delay, at) =>
      assert Local(s, x, j);
      TimeMoves(s, cs, at, j);
      RequestPlanned(s, cs, i, x, p, delay, at, y, j);
    case Forward => ForwardPlanned(s, cs, y, j);
    case SendEndReq => SendEndReqPlanned(s, cs, y, j);
    case Respond(answer) =>
      assert Local(s, s.responses[0].txn, j);
      RespondPlanned(s, answer, cs, y, j);
    case InitiatorEndResp(x, delay) =>
      assert Local(s, s.resp.txn, j);
      InitiatorEndRespPlanned(s, x, delay, cs, y, j);
    case Close =>
      assert Local(s, s.resp.txn, j);
      ClosePlanned(s, cs, y, j);
    case TargetRespond(k) =>
      assert Local(s, s.targets[k].queue[0].txn, k) && Local(s, s.targets[k].queue[0].txn, j);
      TargetRespondPlanned(s, k, cs, y, j);
    case Advance(to) =>
      TimeMoves(s, cs, to, j);
      AdvanceNoGo(s, to);
      QuietPlanned(s, Next(s, step), cs, y, j);
    case FireEndResponse =>
      assert s.now == s.endResponse.value;
      QuietPlanned(s, Next(s, step), cs, y, j);
    case _ => QuietPlanned(s, Next(s, step), cs, y, j);
  }

  lemma AdvanceNoGo(s: State, to: nat)
    requires Enabled(s, Advance(to))
    ensures !s.resp.RespGo?
  {
    NotPassed(s, to, s.now);
  }

  lemma StepOnTrack(s: State, cs: seq<Config>, step: Step, j: nat)
    requires Scheduling(s, cs) && Enabled(s, step)
    ensures OnTrack(Next(s, step), cs, j)
  {
    hide Placed, OnlySentTo, Plan, Only, Count, DoRequest, DoForward, DoRespond, DoClose, DoTargetRespond,
      DoSendEndReq, DoInitiatorEndResp, Planned, RequestFree, ResponseFree, TargetFree, Timely;
    assert OnTrack(s, cs, j);
    match step
    case Request(i, x, p, delay, at) =>
      TimeMoves(s, cs, at, j);
      RequestOnTrack(s, cs, i, x, p, delay, at, j);
    case Forward => ForwardStepOnTrack(s, cs, j);
    case SendEndReq =>
      assert Planned(s, cs, s.req.txn, j);
      SendEndReqOnTrack(s, cs, j);
    case Respond(answer) =>
      assert Local(s, s.responses[0].txn, j) && Planned(s, cs, s.responses[0].txn, j);
      RespondOnTrack(s, answer, cs, j);
    case InitiatorEndResp(x, delay) =>
      assert Planned(s, cs, x, j);
      InitiatorEndRespOnTrack(s, x, delay, cs, j);
    case Close =>
      assert Local(s, s.resp.txn, j) && Planned(s, cs, s.resp.txn, j);
      CloseOnTrack(s, cs, j);
    case TargetRespond(k) =>
      assert Local(s, 0, k) && Planned(s, cs, s.targets[k].queue[0].txn, k) && OnTrack(s, cs, k);
      TargetRespondOnTrack(s, k, cs, j);
    case Advance(to) => TimeMoves(s, cs, to, j);
    case FireEndRespRcvd(k) => assert Local(s, 0, j);
    case _ =>
  }

  lemma ForwardStepOnTrack(s: State, cs: seq<Config>, j: nat)
    requires Scheduling(s, cs) && Enabled(s, Forward)
    ensures OnTrack(DoForward(s), cs, j)
  {
    hide Planned, OnTrack, DoForward, Placed, TargetWaits;
    var x := s.requests[0].txn;
    ForwardReady(s);
    var k := Decode(s.payload[x].address);
    assert Local(s, x, k) && Planned(s, cs, x, k) && OnTrack(s, cs, k) && OnTrack(s, cs, j);
    TrackTarget(s, cs, k);
    if Completes(s) { ForwardCompletedOnTrack(s, cs, k, j); } else { ForwardDeferredOnTrack(s, cs, k, j); }
  }

  lemma StepScheduling(s: State, cs: seq<Config>, step: Step)
    requires Scheduling(s, cs) && Enabled(s, step)
    ensures Scheduling(Next(s, step), cs)
  {
    hide Inv, Planned, OnTrack, Enabled, Next;
    StepKeeps(s, step);
    forall x: Txn, j: nat ensures Planned(Next(s, step), cs, x, j) { StepPlanned(s, cs, step, x, j); }
    forall j: nat ensures OnTrack(Next(s, step), cs, j) { StepOnTrack(s, cs, step, j); }
  }

  lemma {:induction false} RunScheduling(s: State, steps: seq<Step>, s': State, cs: seq<Config>)
    requires Scheduling(s, cs) && Runs(s, steps, s')
    ensures Scheduling(s', cs)
    decreases |steps|
  {
    hide Scheduling;
    if steps != [] {
      StepScheduling(s, cs, steps[0]);
      RunScheduling(Next(s, steps[0]), steps[1..], s', cs);
    }
  }

  function Configs(s: State): seq<Config> {
    seq(|s.targets|, k requires 0 <= k < |s.targets| => s.targets[k].config)
  }

  lemma InitialScheduling(s: State)
    requires Initial(s)
    ensures Scheduling(s, Configs(s))
  {
  }

  /**
   Over every run each request reaches the port that bits 31 to 28 of the address its initiator asked for name, with
   that address modulo 2^28, and every call comes exactly when the annotated and configured delays before it have passed
   and the thread that makes it is free.
   */
  lemma CallsOnTime(s0: State, steps: seq<Step>, s: State)
    requires Initial(s0) && Runs(s0, steps, s)
    ensures Timely(s.log, Configs(s0))
  {
    hide Timely, Planned;
    InitialScheduling(s0);
    RunScheduling(s0, steps, s, Configs(s0));
    assert OnTrack(s, Configs(s0), 0);
  }
}
