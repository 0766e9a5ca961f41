/**
 The three-peripheral pipeline. At timer rollover peripheral A streams the numbers 0, 1, ... through a
 bounded FIFO to B; B inverts each byte, stores it and issues a non-blocking write of it to C, whose
 data pointer aims into B's own memory; C counts bytes and raises its interrupt when all have landed.

 Steps interleave freely: any memory size up to 256, any FIFO depth, any order in which C serves the
 writes, and any of the three answers the non-blocking protocol allows.
 */
module Pipeline {
  type Byte = bv8

  /** The byte that A's loop index becomes on its way into the FIFO. */
  function Number(i: nat): Byte { (i % 256) as bv8 }

  function Inverted(v: Byte): Byte { v ^ 0xFF }

  /** A write that C accepted and has not answered yet. */
  datatype Stage =
    | Flying     // C has not copied its data yet
    | Raising    // copied; the call still has to raise the interrupt
    | Answering  // copied; BEGIN_RESP is still to come

  /** How C answers BEGIN_REQ. */
  datatype Reply = Completed | BeginResp | Accepted

  datatype State = State(
    size: nat, depth: nat,
    timerDone: bool,
    next: nat,               // A's loop index
    fifo: seq<Byte>,         // from A to B
    memoryB: seq<Byte>,
    index: nat,              // B's memory_index, also the number of payloads allocated
    live: map<nat, Stage>,   // B's writes that are not over, by address
    endReqs: set<nat>,       // addresses of the writes for which C has sent END_REQ
    refs: map<nat, int>,     // reference counts of B's payloads, by address
    memoryC: seq<Byte>,
    count: nat,              // C's memory_written_count
    landed: set<nat>,        // history: addresses that C has written
    last: nat,               // history: the one it wrote last
    irq: bool,
    fault: bool)             // a freed payload was touched or a memory bound was passed

  datatype Step =
    | Rollover
    | Stream
    | Receive(reply: Reply)
    | EndReq(k: nat)
    | Land(k: nat)
    | Raise(k: nat)
    | Respond(k: nat)

  predicate Enabled(s: State, step: Step) {
    match step
    case Rollover => !s.timerDone
    case Stream => s.timerDone && s.next < s.size && |s.fifo| < s.depth
    case Receive(_) => s.fifo != []
    case EndReq(k) => k in s.live && k !in s.endReqs
    case Land(k) => k in s.live && s.live[k].Flying?
    case Raise(k) => k in s.live && s.live[k].Raising?
    case Respond(k) => k in s.live && s.live[k].Answering?
  }

  function Fail(s: State): State { s.(fault := true) }

  /** C copies the byte the payload points to and counts it. */
  function Copy(s: State, k: nat): State {
    if k >= |s.memoryB| || k >= |s.memoryC| then Fail(s) else
    s.(memoryC := s.memoryC[k := s.memoryB[k]], count := s.count + 1, landed := s.landed + {k}, last := k)
  }

  /** B looks at or releases a payload: it must not have been freed. */
  function Touch(s: State, k: nat): State {
    if k in s.refs && s.refs[k] > 0 then s else Fail(s)
  }

  function Release(s: State, k: nat): State {
    if k in s.refs && s.refs[k] > 0 then s.(refs := s.refs[k := s.refs[k] - 1]) else Fail(s)
  }

  /** One turn of B's loop: read, invert, store, allocate a payload, call C and act on the reply. */
  function DoReceive(s: State, reply: Reply): State
    requires s.fifo != []
  {
    var k := s.index;
    if k >= |s.memoryB| then Fail(s) else
    var issued := s.(fifo := s.fifo[1..],
                     memoryB := s.memoryB[k := Inverted(s.fifo[0])],
                     index := k + 1,
                     refs := s.refs[k := 1]);
    if reply == Accepted then issued.(live := s.live[k := Flying])
    else Release(Touch(Served(issued, k), k), k)
  }

  /** C serves a write inside the non-blocking call. */
  function Served(s: State, k: nat): State {
    var copied := Copy(s, k);
    copied.(irq := copied.irq || copied.count == copied.size)
  }

  /** The blocking call at C copies; if that was the last byte it goes on to raise the interrupt. */
  function DoLand(s: State, k: nat): State {
    var copied := Copy(s, k);
    copied.(live := s.live[k := if copied.count == copied.size then Raising else Answering])
  }

  /** C sends END_REQ, at most once and before BEGIN_RESP: B sets the response status and does no more. */
  function DoEndReq(s: State, k: nat): State { Touch(s, k).(endReqs := s.endReqs + {k}) }

  /** C sends BEGIN_RESP: B sets the response status, sends END_RESP and releases the payload. */
  function DoRespond(s: State, k: nat): State {
    Release(Touch(s, k), k).(live := s.live - {k})
  }

  function Next(s: State, step: Step): State
    requires Enabled(s, step)
  {
    match step
    case Rollover => s.(timerDone := true)
    case Stream => s.(fifo := s.fifo + [Number(s.next)], next := s.next + 1)
    case Receive(reply) => DoReceive(s, reply)
    case EndReq(k) => DoEndReq(s, k)
    case Land(k) => DoLand(s, k)
    case Raise(k) => s.(irq := true, live := s.live[k := Answering])
    case Respond(k) => DoRespond(s, k)
  }

  predicate Initial(s: State) {
    && s.size <= 256 && s.depth > 0 && |s.memoryB| == s.size && |s.memoryC| == s.size
    && !s.timerDone && s.next == 0 && s.fifo == [] && s.index == 0 && s.live == map[]
    && s.endReqs == {} && s.refs == map[]
    && s.count == 0 && s.landed == {} && !s.irq && !s.fault
  }

  ghost predicate Runs(s: State, steps: seq<Step>, s': State)
    decreases |steps|
  {
    if steps == [] then s' == s
    else Enabled(s, steps[0]) && Runs(Next(s, steps[0]), steps[1..], s')
  }

  ghost predicate Reachable(s: State) {
    exists s0, steps :: Initial(s0) && Runs(s0, steps, s)
  }

  // ---------------------------------------------------------------- invariant

  /** The numbers travel in order: the FIFO holds those that A has written and B has not read. */
  ghost predicate Streamed(s: State) {
    && s.size <= 256 && s.depth > 0 && |s.memoryB| == s.size && |s.memoryC| == s.size
    && s.index + |s.fifo| == s.next <= s.size && |s.fifo| <= s.depth
    && (!s.timerDone ==> s.next == 0)
    && (forall i | 0 <= i < |s.fifo| :: s.fifo[i] == Number(s.index + i))
  }

  predicate At(s: State, k: nat, stage: Stage) { k in s.live && s.live[k] == stage }

  /** One byte: stored inverted in B once read, landed in C once it is not flying, its payload held while live. */
  predicate ByteOk(s: State, k: nat) {
    && (k in s.live || k in s.endReqs ==> k < s.index)
    && (k in s.refs <==> k < s.index)
    && (k in s.refs ==> s.refs[k] == if k in s.live then 1 else 0)
    && (k < s.index ==> k < |s.memoryB| && s.memoryB[k] == Inverted(Number(k)))
    && (k in s.landed <==> k < s.index && !At(s, k, Flying))
    && (k in s.landed ==> k < |s.memoryC| && s.memoryC[k] == Inverted(Number(k)))
    && (At(s, k, Raising) ==> s.count == s.size && !s.irq && k == s.last)
  }

  /** The interrupt is raised, or about to be, exactly when every byte has landed. */
  predicate Interrupts(s: State) {
    && (s.irq ==> s.count == s.size)
    && (s.count == s.size && s.size > 0 && !s.irq ==> At(s, s.last, Raising))
  }

  ghost predicate Inv(s: State) {
    && Streamed(s)
    && (forall k: nat :: ByteOk(s, k))
    && s.count == |s.landed| <= s.index
    && Interrupts(s)
    && !s.fault
  }

  lemma {:induction false} SubsetSize(a: set<nat>, n: nat)
    requires forall k | k in a :: k < n
    ensures |a| <= n
    ensures |a| == n ==> forall k: nat | k < n :: k in a
  {
    if n > 0 {
      SubsetSize(a - {n - 1}, n - 1);
      if n - 1 !in a {
        assert a - {n - 1} == a;
      }
    }
  }

  lemma {:induction false} FullSize(a: set<nat>, n: nat)
    requires forall k: nat | k < n :: k in a
    ensures |a| >= n
  {
    if n > 0 { FullSize(a - {n - 1}, n - 1); }
  }

  /** Everything landed so far was issued. */
  lemma LandedIssued(s: State)
    requires forall k: nat :: ByteOk(s, k)
    ensures |s.landed| <= s.index
    ensures |s.landed| == s.index ==> forall k: nat | k < s.index :: k in s.landed
  {
    forall k | k in s.landed ensures k < s.index {
      assert ByteOk(s, k);
    }
    SubsetSize(s.landed, s.index);
  }

  /** A write that C serves at once: the byte lands and its payload is freed in the same step. */
  lemma ServedAtOnce(s: State, reply: Reply)
    requires s.fifo != [] && s.index < |s.memoryB| == |s.memoryC| && reply != Accepted
    ensures DoReceive(s, reply) ==
      s.(fifo := s.fifo[1..], memoryB := s.memoryB[s.index := Inverted(s.fifo[0])], index := s.index + 1,
         refs := s.refs[s.index := 1][s.index := 0], memoryC := s.memoryC[s.index := Inverted(s.fifo[0])],
         count := s.count + 1, landed := s.landed + {s.index}, last := s.index, irq := s.irq || s.count + 1 == s.size)
  {
  }

  lemma ReceiveByte(s: State, reply: Reply, k: nat)
    requires Streamed(s) && s.fifo != [] && s.count <= s.index
    requires ByteOk(s, k) && ByteOk(s, s.index)
    ensures ByteOk(DoReceive(s, reply), k)
  {
    assert s.fifo[0] == Number(s.index + 0);
    if reply != Accepted { ServedAtOnce(s, reply); }
  }

  lemma ReceiveRest(s: State, reply: Reply)
    requires Streamed(s) && s.fifo != [] && s.count == |s.landed| <= s.index && Interrupts(s) && !s.fault
    requires ByteOk(s, s.index)
    ensures var s' := DoReceive(s, reply);
      Streamed(s') && s'.count == |s'.landed| <= s'.index && Interrupts(s') && !s'.fault
  {
    hide Number;
    if reply != Accepted { ServedAtOnce(s, reply); }
    var s' := DoReceive(s, reply);
    forall i | 0 <= i < |s'.fifo| ensures s'.fifo[i] == Number(s'.index + i) {
      assert s'.fifo[i] == s.fifo[i + 1];
    }
  }

  lemma LandByte(s: State, k: nat, j: nat)
    requires |s.memoryB| == |s.memoryC| == s.size && At(s, k, Flying)
    requires ByteOk(s, k) && ByteOk(s, j) && s.count < s.size && !s.irq
    ensures ByteOk(DoLand(s, k), j)
  {
  }

  lemma StepByte(s: State, step: Step, j: nat)
    requires Inv(s) && Enabled(s, step)
    ensures ByteOk(Next(s, step), j)
  {
    assert ByteOk(s, j);
    match step
    case Receive(reply) =>
      assert ByteOk(s, s.index);
      ReceiveByte(s, reply, j);
    case Land(k) =>
      assert ByteOk(s, k);
      LandRoom(s, k);
      LandByte(s, k, j);
    case EndReq(k) => assert ByteOk(s, k);
    case Raise(k) => assert ByteOk(s, k);
    case Respond(k) => assert ByteOk(s, k);
    case _ =>
  }

  /** A flying write is still missing at C. */
  lemma LandRoom(s: State, k: nat)
    requires Inv(s) && At(s, k, Flying)
    ensures s.count < s.index && k !in s.landed
  {
    assert ByteOk(s, k);
    LandedIssued(s);
  }

  lemma LandRest(s: State, k: nat)
    requires Streamed(s) && s.count == |s.landed| < s.index && Interrupts(s) && !s.fault
    requires At(s, k, Flying) && ByteOk(s, k)
    ensures var s' := DoLand(s, k);
      Streamed(s') && s'.count == |s'.landed| <= s'.index && Interrupts(s') && !s'.fault
  {
    hide Number;
  }

  lemma StepRest(s: State, step: Step)
    requires Inv(s) && Enabled(s, step)
    ensures var s' := Next(s, step);
      Streamed(s') && s'.count == |s'.landed| <= s'.index && Interrupts(s') && !s'.fault
  {
    hide DoReceive, DoLand, Number;
    match step
    case Receive(reply) =>
      assert ByteOk(s, s.index);
      ReceiveRest(s, reply);
    case Land(k) =>
      assert ByteOk(s, k);
      LandRoom(s, k);
      LandRest(s, k);
    case EndReq(k) => assert ByteOk(s, k);
    case Raise(k) => assert ByteOk(s, k);
    case Respond(k) => assert ByteOk(s, k) && ByteOk(s, s.last);
    case _ =>
  }

  lemma StepKeeps(s: State, step: Step)
    requires Inv(s) && Enabled(s, step)
    ensures Inv(Next(s, step))
  {
    StepRest(s, step);
    forall j: nat ensures ByteOk(Next(s, step), j) {
      StepByte(s, step, j);
    }
  }

  lemma {:induction false} RunKeeps(s: State, steps: seq<Step>, s': State)
    requires Inv(s) && Runs(s, steps, s')
    ensures Inv(s')
    decreases |steps|
  {
    if steps != [] {
      StepKeeps(s, steps[0]);
      RunKeeps(Next(s, steps[0]), steps[1..], s');
    }
  }

  lemma ReachableInv(s: State)
    requires Reachable(s)
    ensures Inv(s)
  {
    var s0, steps :| Initial(s0) && Runs(s0, steps, s);
    RunKeeps(s0, steps, s);
  }

  // ---------------------------------------------------------------- main results

  /** The byte that arrives for place `k`, bit by bit the inverse of it. */
  lemma InverseOfPlace(k: nat)
    requires k < 256
    ensures Inverted(Number(k)) ^ (k as bv8) == 0xFF
  {
    InverseOfByte(k as bv8);
  }

  lemma InverseOfByte(v: bv8)
    ensures Inverted(v) ^ v == 0xFF
  {
  }

  /**
   Whenever the interrupt is high, every distinct byte has landed and C holds k XOR 0xFF at every place k.
   */
  lemma InterruptMeansDone(s: State)
    requires Reachable(s) && s.irq
    ensures |s.memoryC| == s.size <= 256 && s.next == s.index == s.size
    ensures forall k: nat | k < s.size :: k in s.landed && s.memoryC[k] ^ (k as bv8) == 0xFF
  {
    ReachableInv(s);
    LandedIssued(s);
    forall k: nat | k < s.size ensures k in s.landed && s.memoryC[k] ^ (k as bv8) == 0xFF {
      assert ByteOk(s, k);
      InverseOfPlace(k);
    }
  }

  /**
   Nothing is streamed before rollover; from then on the FIFO never holds more than its depth, and what it holds are the
   numbers that A has written and B has not read, in order.
   */
  lemma StreamInOrder(s: State)
    requires Reachable(s)
    ensures !s.timerDone ==> s.next == 0
    ensures s.index + |s.fifo| == s.next <= s.size <= 256 && |s.fifo| <= s.depth
    ensures forall i | 0 <= i < |s.fifo| :: s.fifo[i] == (s.index + i) as bv8
  {
    ReachableInv(s);
  }

  /**
   B's payloads: the live ones are exactly the writes that are not over, each allocated payload was acquired
   once and is released once it is over, and none is touched or released afterwards.
   */
  lemma PayloadsExact(s: State)
    requires Reachable(s)
    ensures !s.fault
    ensures forall k: nat ::
              (k in s.refs <==> k < s.index) && (k < s.index ==> s.refs[k] == if k in s.live then 1 else 0)
    ensures forall k | k in s.live :: k < s.index
  {
    ReachableInv(s);
    forall k: nat
      ensures (k in s.refs <==> k < s.index) && (k < s.index ==> s.refs[k] == if k in s.live then 1 else 0)
      ensures k in s.live ==> k < s.index
    {
      assert ByteOk(s, k);
    }
  }

  /** While a write is flying, the byte its payload points to in B's memory is still the one that was issued. */
  lemma AliasedByteStays(s: State, k: nat)
    requires Reachable(s) && k in s.live
    ensures k < |s.memoryB| <= 256 && s.memoryB[k] ^ (k as bv8) == 0xFF
  {
    ReachableInv(s);
    assert ByteOk(s, k);
    InverseOfPlace(k);
  }

  // ---------------------------------------------------------------- every run ends, with the interrupt

  /** Work still to do. */
  function Rank(s: State): int {
    (if s.timerDone then 0 else 1) + 6 * (s.size - s.next) + 5 * |s.fifo|
    + 2 * (s.index - s.count) + |s.live| + (s.index - |s.endReqs|) + if s.irq then 0 else 1
  }

  lemma RemoveLive(m: map<nat, Stage>, k: nat)
    requires k in m
    ensures |m - {k}| == |m| - 1
  {
    assert (m - {k}).Keys == m.Keys - {k};
  }

  lemma PutLive(m: map<nat, Stage>, k: nat, v: Stage)
    ensures |m[k := v]| == if k in m then |m| else |m| + 1
  {
    assert m[k := v].Keys == m.Keys + {k};
  }

  lemma ReceiveRank(s: State, reply: Reply)
    requires Streamed(s) && s.fifo != [] && ByteOk(s, s.index) && s.count < s.size
    ensures Rank(DoReceive(s, reply)) < Rank(s)
  {
    if reply != Accepted { ServedAtOnce(s, reply); }
    PutLive(s.live, s.index, Flying);
  }

  lemma StepRank(s: State, step: Step)
    requires Inv(s) && Enabled(s, step)
    ensures Rank(Next(s, step)) < Rank(s)
  {
    match step
    case Receive(reply) =>
      assert ByteOk(s, s.index);
      ReceiveRank(s, reply);
    case Land(k) =>
      assert ByteOk(s, k);
      PutLive(s.live, k, Raising);
      PutLive(s.live, k, Answering);
    case Raise(k) =>
      assert ByteOk(s, k);
      PutLive(s.live, k, Answering);
    case Respond(k) =>
      assert ByteOk(s, k);
      RemoveLive(s.live, k);
    case _ =>
  }

  /** No run is longer than the rank of its first state. */
  lemma {:induction false} RunsEnd(s: State, steps: seq<Step>, s': State)
    requires Inv(s) && Runs(s, steps, s')
    ensures |steps| + Rank(s') <= Rank(s) && Rank(s') >= 0
    decreases |steps|
  {
    if steps != [] {
      StepRank(s, steps[0]);
      StepKeeps(s, steps[0]);
      RunsEnd(Next(s, steps[0]), steps[1..], s');
    } else {
      forall k | k in s.endReqs ensures k < s.index {
        assert ByteOk(s, k);
      }
      SubsetSize(s.endReqs, s.index);
    }
  }

  /**
   There is no deadlock: a run that cannot go on has streamed every byte, answered every write and freed
   every payload; and the interrupt is high unless the memory is empty.
   */
  lemma MaximalRunsRaise(s: State)
    requires Reachable(s) && forall step: Step :: !Enabled(s, step)
    ensures s.size > 0 ==> s.irq
    ensures s.index == s.size && s.live == map[] && forall k | k in s.refs :: s.refs[k] == 0
  {
    ReachableInv(s);
    assert !Enabled(s, Rollover) && !Enabled(s, Stream) && !Enabled(s, Receive(Accepted));
    forall k: nat ensures k !in s.live && (k in s.refs ==> s.refs[k] == 0) && (k < s.index ==> k in s.landed) {
      assert ByteOk(s, k);
      assert !Enabled(s, Land(k)) && !Enabled(s, Raise(k)) && !Enabled(s, Respond(k));
    }
    assert s.live == map[];
    FullSize(s.landed, s.index);
  }
}
