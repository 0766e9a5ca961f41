/**
 The peripherals as objects with the fields and loops of the code, wired as A, B and C; every method is
 proved to take steps of the pipeline.
 */
module PipelineModules {
  import opened Pipeline

  class Peripheral {
    const depth: nat
    const memory: array<Byte>
    var timerDone: bool
    var streamIndex: nat
    var fifo: seq<Byte>
    var memoryIndex: nat
    var memoryWrittenCount: nat
    var irqSignal: bool

    constructor (size: nat, depth: nat)
      ensures fresh(memory) && memory.Length == size && this.depth == depth
      ensures !timerDone && streamIndex == 0 && fifo == [] && memoryIndex == 0 && memoryWrittenCount == 0 && !irqSignal
    {
      this.depth := depth;
      memory := new Byte[size];
      timerDone, streamIndex, fifo, memoryIndex, memoryWrittenCount, irqSignal := false, 0, [], 0, 0, false;
    }

    /** The write part of `b_transport` on the memory port, for one byte; tells whether it was the last. */
    method WriteMemory(offset: nat, value: Byte) returns (last: bool)
      requires offset < memory.Length
      modifies memory, this`memoryWrittenCount
      ensures memory[..] == old(memory[..])[offset := value]
      ensures memoryWrittenCount == old(memoryWrittenCount) + 1
      ensures last == (memoryWrittenCount == memory.Length)
    {
      memory[offset] := value;
      memoryWrittenCount := memoryWrittenCount + 1;
      last := memoryWrittenCount == memory.Length;
    }
  }

  /** The phases in which C calls back. */
  datatype BackwardPhase = EndRequest | BeginResponse

  /** B's loop over what is in the FIFO, with C's reply to each write. */
  function ReceiveAll(s: State, replies: seq<Reply>): State
  {
    if replies == [] then s
    else
      var t := ReceiveAll(s, replies[..|replies| - 1]);
      if t.fifo == [] then t else DoReceive(t, replies[|replies| - 1])
  }

  class Top {
    const a: Peripheral
    const b: Peripheral
    const c: Peripheral
    var live: map<nat, Stage>
    var refs: map<nat, int>
    ghost var endReqs: set<nat>
    ghost var landed: set<nat>
    ghost var last: nat

    ghost predicate Valid() {
      a != b && a != c && b != c && b.memory != c.memory && b.memory.Length == c.memory.Length == a.memory.Length
    }

    ghost function Abs(): State
      reads this, a, b, c, b.memory, c.memory
    {
      State(a.memory.Length, a.depth, a.timerDone, a.streamIndex, a.fifo, b.memory[..], b.memoryIndex,
            live, endReqs, refs, c.memory[..], c.memoryWrittenCount, landed, last, c.irqSignal, false)
    }

    constructor (size: nat, depth: nat)
      requires size <= 256 && depth > 0
      ensures Valid() && Initial(Abs()) && Abs().size == size && Abs().depth == depth
    {
      a := new Peripheral(size, depth);
      b := new Peripheral(size, depth);
      c := new Peripheral(size, depth);
      live, endReqs, refs, landed, last := map[], {}, map[], {}, 0;
    }

    /** The rollover event wakes `timer_done_thread`. */
    method TimerDoneThreadStarts()
      requires Valid() && !a.timerDone
      modifies a
      ensures Abs() == Next(old(Abs()), Rollover)
    {
      a.timerDone := true;
    }

    /** The next turn of its loop, when the blocking write finds room. */
    method TimerDoneThreadWrites()
      requires Valid() && Enabled(Abs(), Stream)
      modifies a
      ensures Abs() == Next(old(Abs()), Stream)
    {
      a.fifo := a.fifo + [Number(a.streamIndex)];
      a.streamIndex := a.streamIndex + 1;
    }

    /** `fifo_data_received_method`: reads until the FIFO is empty. */
    method FifoDataReceivedMethod(replies: seq<Reply>)
      requires Valid() && Inv(Abs()) && |replies| == |a.fifo|
      modifies this, a, b, c, b.memory, c.memory
      ensures Abs() == ReceiveAll(old(Abs()), replies) && Inv(Abs())
      ensures a.fifo == [] && b.memoryIndex == old(b.memoryIndex) + |replies|
    {
      ghost var before := Abs();
      var i := 0;
      while a.fifo != []
        invariant i <= |replies| && |a.fifo| == |replies| - i && b.memoryIndex == old(b.memoryIndex) + i
        invariant Abs() == ReceiveAll(before, replies[..i]) && Inv(Abs())
        decreases |a.fifo|
      {
        ghost var s := Abs();
        StepKeeps(s, Receive(replies[i]));
        assert replies[..i + 1][..i] == replies[..i];
        ReceiveOne(replies[i]);
        i := i + 1;
      }
      assert replies[..i] == replies;
    }

    /** One turn of that loop. */
    method ReceiveOne(reply: Reply)
      requires Valid() && a.fifo != [] && b.memoryIndex < b.memory.Length
      modifies this, a, b, c, b.memory, c.memory
      ensures Abs() == DoReceive(old(Abs()), reply)
      ensures a.fifo == old(a.fifo)[1..] && b.memoryIndex == old(b.memoryIndex) + 1
      ensures b.memory[old(b.memoryIndex)] ^ old(a.fifo)[0] == 0xFF
    {
      hide Served;
      ghost var before := Abs();
      var k := b.memoryIndex;
      var value := Inverted(a.fifo[0]);
      InverseOfByte(a.fifo[0]);
      a.fifo := a.fifo[1..];
      b.memory[k] := value;
      b.memoryIndex := k + 1;
      assert b.memory[..] == before.memoryB[k := value];
      refs := refs[k := 1];
      if reply == Accepted {
        live := live[k := Flying];
      } else {
        ServedAtOnce(before, reply);
        var done := c.WriteMemory(k, b.memory[k]);
        c.irqSignal := c.irqSignal || done;
        landed, last := landed + {k}, k;
        refs := refs[k := refs[k] - 1];
      }
    }

    /** The blocking call at C for an accepted write: its data is read through the pointer into B's memory. */
    method BTransportCopies(k: nat)
      requires Valid() && k < b.memory.Length
      modifies this, c, c.memory
      ensures Abs() == DoLand(old(Abs()), k)
    {
      var done := c.WriteMemory(k, b.memory[k]);
      landed, last := landed + {k}, k;
      live := live[k := if done then Raising else Answering];
    }

    method BTransportRaises(k: nat)
      requires Valid() && Enabled(Abs(), Raise(k))
      modifies this`live, c`irqSignal
      ensures Abs() == Next(old(Abs()), Raise(k))
    {
      c.irqSignal := true;
      live := live[k := Answering];
    }

    /** `nb_transport_bw`: the payload it touches is still held; END_REQ does no more, BEGIN_RESP releases it. */
    method NbTransportBw(k: nat, phase: BackwardPhase) returns (updated: bool)
      requires Valid() && k in refs && refs[k] > 0
      modifies this`live, this`endReqs, this`refs
      ensures Abs() == if phase == EndRequest then DoEndReq(old(Abs()), k) else DoRespond(old(Abs()), k)
      ensures updated == (phase == BeginResponse)
    {
      if phase == EndRequest {
        endReqs := endReqs + {k};
        return false;
      }
      refs := refs[k := refs[k] - 1];
      live := live - {k};
      return true;
    }
  }
}
