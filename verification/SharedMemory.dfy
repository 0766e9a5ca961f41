/**
 The byte memory under the ping-pong program: a bounds-checked window in the address space. Words stored by the program
 through it are the words of the program's shared state.
 */
module SharedMemory {
  import opened LittleEndian
  import P = PingPong

  datatype Command = Read | Write | Ignore
  datatype Status = Ok | AddressError

  class Memory {
    const startAddress: nat
    const memory: array<Byte>

    constructor (startAddress: nat, size: nat)
      ensures fresh(memory) && this.startAddress == startAddress && memory.Length == size
      ensures memory[..] == seq(size, _ => 0)
    {
      this.startAddress := startAddress;
      memory := new Byte[size](_ => 0);
    }

    method CheckBounds(address: nat, length: nat) returns (ok: bool, offset: nat)
      ensures ok <==> startAddress <= address && address + length <= startAddress + memory.Length
      ensures ok ==> offset == address - startAddress
    {
      if address < startAddress || address + length > startAddress + memory.Length {
        return false, 0;
      }
      return true, address - startAddress;
    }

    /** `b_transport`; `data` is the payload's buffer, and the delay grows by one microsecond when bounds hold. */
    method BTransport(command: Command, address: nat, data: array<Byte>, delay: nat)
      returns (status: Status, delayed: nat)
      requires data != memory
      modifies memory, data
      ensures status.Ok? <==> startAddress <= address && address + data.Length <= startAddress + memory.Length
      ensures delayed == delay + if status.Ok? then 1 else 0
      ensures memory[..] == if status.Ok? && command.Write?
        then Splice(old(memory[..]), address - startAddress, old(data[..])) else old(memory[..])
      ensures data[..] == if status.Ok? && command.Read?
        then old(memory[..])[address - startAddress..address - startAddress + data.Length] else old(data[..])
    {
      var ok, offset := CheckBounds(address, data.Length);
      if !ok {
        return AddressError, delay;
      }
      match command {
        case Read =>
          forall i | 0 <= i < data.Length { data[i] := memory[offset + i]; }
          assert data[..] == old(memory[..])[offset..offset + data.Length];
        case Write =>
          forall i | 0 <= i < data.Length { memory[offset + i] := data[i]; }
          assert memory[..] == Splice(old(memory[..]), offset, old(data[..]));
        case Ignore =>
      }
      return Ok, delay + 1;
    }
  }

  // ---------------------------------------------------------------- the program's words in the bytes

  const SIZE: nat := 0x20000
  const COUNTER: nat := 0x3020
  const INCREMENTS: nat := 0xc
  const DONE: nat := 0x8

  /** Where a core's block lies in the window. */
  function Block(p: nat): nat { 0x3000 + 0x10 * p }

  function Word(bytes: seq<Byte>, offset: nat): nat
    requires offset + 4 <= |bytes|
  {
    Value(bytes[offset..offset + 4])
  }

  function Store(bytes: seq<Byte>, offset: nat, v: nat): (r: seq<Byte>)
    requires offset + 4 <= |bytes|
    ensures |r| == |bytes|
  {
    Splice(bytes, offset, Bytes(v, 4))
  }

  /** The shared state of the program, read from the bytes. */
  function View(bytes: seq<Byte>): P.Shared
    requires |bytes| == SIZE
  {
    P.Shared(Word(bytes, COUNTER),
             [Word(bytes, Block(0) + INCREMENTS), Word(bytes, Block(1) + INCREMENTS)],
             [Word(bytes, Block(0) + DONE), Word(bytes, Block(1) + DONE)])
  }

  lemma StoreWord(bytes: seq<Byte>, offset: nat, v: nat, other: nat)
    requires offset + 4 <= |bytes| && other + 4 <= |bytes| && v < 0x1_0000_0000
    ensures Word(Store(bytes, offset, v), offset) == v
    ensures other + 4 <= offset || offset + 4 <= other ==> Word(Store(bytes, offset, v), other) == Word(bytes, other)
  {
    assert Power(2) == 0x1_0000;
    assert Power(4) == 256 * (256 * Power(2));
    ValueOfBytes(v, 4);
    SpliceAt(bytes, offset, Bytes(v, 4));
    if other + 4 <= offset || offset + 4 <= other {
      SpliceApart(bytes, offset, Bytes(v, 4), other, 4);
    }
  }

  const WORD: nat := 0x1_0000_0000

  /** The stores of an instruction, as bytes; a register holds 32 bits. */
  function StoreOf(bytes: seq<Byte>, c: P.Core, p: nat): (r: seq<Byte>)
    requires |bytes| == SIZE && p < 2
    ensures |r| == SIZE
  {
    match c.pc
    case 10 => Store(bytes, COUNTER, c.r3 % WORD)
    case 13 => Store(bytes, Block(p) + INCREMENTS, c.r5 % WORD)
    case 15 => Store(bytes, Block(p) + DONE, c.r3 % WORD)
    case _ => bytes
  }

  /** The register that the instruction stores, if it stores one, holds a 32-bit number. */
  predicate StoresWord(c: P.Core) {
    (c.pc == 10 || c.pc == 15 ==> 0 <= c.r3 < WORD) && (c.pc == 13 ==> 0 <= c.r5 < WORD)
  }

  /**
   Executing an instruction on the bytes and reading the program's words back is executing it on the words: no store
   touches another word of the program.
   */
  lemma BytesRefineWords(bytes: seq<Byte>, c: P.Core, p: nat, limit: nat)
    requires |bytes| == SIZE && p < 2 && StoresWord(c)
    ensures View(StoreOf(bytes, c, p)) == P.Execute(c, View(bytes), p, limit).1
  {
    hide Word;
    var at := match c.pc case 10 => COUNTER case 13 => Block(p) + INCREMENTS case _ => Block(p) + DONE;
    var v := if c.pc == 13 then c.r5 % WORD else c.r3 % WORD;
    StoreWord(bytes, at, v, COUNTER);
    StoreWord(bytes, at, v, Block(0) + INCREMENTS);
    StoreWord(bytes, at, v, Block(1) + INCREMENTS);
    StoreWord(bytes, at, v, Block(0) + DONE);
    StoreWord(bytes, at, v, Block(1) + DONE);
  }

  /** The two cores and the memory as it really is: bytes. */
  datatype Machine = Machine(core: seq<P.Core>, bytes: seq<Byte>)

  predicate Shaped(m: Machine) { |m.core| == 2 && |m.bytes| == SIZE }

  /** The machine's program state. */
  function Seen(m: Machine): (s: P.State)
    requires Shaped(m)
    ensures P.Shaped(s)
  {
    P.State(m.core, View(m.bytes))
  }

  function Next(m: Machine, p: nat, limit: nat): (m': Machine)
    requires Shaped(m) && p < 2
    ensures Shaped(m')
  {
    Machine(m.core[p := P.Execute(m.core[p], View(m.bytes), p, limit).0], StoreOf(m.bytes, m.core[p], p))
  }

  function Run(m: Machine, schedule: seq<bool>, limit: nat): (m': Machine)
    requires Shaped(m)
    ensures Shaped(m')
    decreases |schedule|
  {
    if schedule == [] then m else Run(Next(m, P.Number(schedule[0]), limit), schedule[1..], limit)
  }

  lemma CoreStoresWord(c: P.Core, m: P.Shared, p: nat, limit: nat)
    requires p < 2 && |m.increments| == 2 && |m.done| == 2 && 0 <= m.counter <= limit < WORD
    requires P.CoreOk(c, m, p, limit)
    ensures StoresWord(c)
  {
  }

  lemma {:induction false} RunsRefine(m: Machine, schedule: seq<bool>, limit: nat)
    requires Shaped(m) && P.Inv(Seen(m), limit) && limit < WORD
    ensures Seen(Run(m, schedule, limit)) == P.Run(Seen(m), schedule, limit)
    decreases |schedule|
  {
    hide P.CoreOk, P.Execute, StoreOf, View;
    if schedule != [] {
      var p := P.Number(schedule[0]);
      CoreStoresWord(m.core[p], View(m.bytes), p, limit);
      BytesRefineWords(m.bytes, m.core[p], p, limit);
      P.StepKeeps(Seen(m), p, limit);
      RunsRefine(Next(m, p, limit), schedule[1..], limit);
    }
  }

  // ---------------------------------------------------------------- the program's data and the rest of the window

  /** The bytes of the counter and of both cores' DONE and INCREMENTS. The code of the program lies outside. */
  predicate IsData(i: nat) {
    0x3020 <= i < 0x3024 || 0x3008 <= i < 0x3010 || 0x3018 <= i < 0x3020
  }

  /** An instruction stores to no byte outside the program's data. */
  lemma StoreStays(bytes: seq<Byte>, c: P.Core, p: nat, i: nat)
    requires |bytes| == SIZE && p < 2 && i < SIZE && !IsData(i)
    ensures StoreOf(bytes, c, p)[i] == bytes[i]
  {
    hide Bytes;
  }

  /**
   Over every interleaving no byte outside the program's data changes; so the instructions of both cores, which lie in
   the same window, are the ones that were put there.
   */
  lemma {:induction false} OnlyDataChanges(m: Machine, schedule: seq<bool>, limit: nat, i: nat)
    requires Shaped(m) && i < SIZE && !IsData(i)
    ensures Run(m, schedule, limit).bytes[i] == m.bytes[i]
    decreases |schedule|
  {
    hide P.Execute, StoreOf, View, IsData;
    if schedule != [] {
      var p := P.Number(schedule[0]);
      StoreStays(m.bytes, m.core[p], p, i);
      OnlyDataChanges(Next(m, p, limit), schedule[1..], limit, i);
    }
  }

  lemma {:induction false} ZerosAreZero(bytes: seq<Byte>)
    requires forall i | 0 <= i < |bytes| :: bytes[i] == 0
    ensures Value(bytes) == 0
  {
    if bytes != [] { ZerosAreZero(bytes[1..]); }
  }

  /** The program's words are zero when the bytes of its data are, whatever else the window holds. */
  lemma ZeroWords(bytes: seq<Byte>)
    requires |bytes| == SIZE && forall i: nat | i < SIZE && IsData(i) :: bytes[i] == 0
    ensures View(bytes) == P.Shared(0, [0, 0], [0, 0])
  {
    hide Value;
    ZerosAreZero(bytes[COUNTER..COUNTER + 4]);
    ZerosAreZero(bytes[Block(0) + INCREMENTS..Block(0) + INCREMENTS + 4]);
    ZerosAreZero(bytes[Block(1) + INCREMENTS..Block(1) + INCREMENTS + 4]);
    ZerosAreZero(bytes[Block(0) + DONE..Block(0) + DONE + 4]);
    ZerosAreZero(bytes[Block(1) + DONE..Block(1) + DONE + 4]);
  }

  // ---------------------------------------------------------------- main results, on bytes

  /** Both cores about to start and the program's data zero; the rest of the window holds anything. */
  predicate Initial(m: Machine) {
    && Shaped(m) && m.core[0].pc == 0 && m.core[1].pc == 0
    && forall i: nat | i < SIZE && IsData(i) :: m.bytes[i] == 0
  }

  lemma InitialSeen(m: Machine, limit: nat)
    requires Initial(m)
    ensures P.Initial(Seen(m)) && P.Inv(Seen(m), limit)
  {
    hide P.Inv;
    ZeroWords(m.bytes);
    P.InitialInv(Seen(m), limit);
  }

  /**
   Every interleaving of the program on bytes reads as one on words, so when both DONE words are set no increment is
   lost in the bytes either.
   */
  lemma BytesLoseNothing(m: Machine, schedule: seq<bool>, limit: nat)
    requires Initial(m) && limit < WORD
    ensures var t := Run(m, schedule, limit);
      && Seen(t) == P.Run(Seen(m), schedule, limit)
      && Value(t.bytes[0x3020..0x3024]) <= limit
      && (Value(t.bytes[0x3008..0x300c]) == 1 && Value(t.bytes[0x3018..0x301c]) == 1 ==>
            && Value(t.bytes[0x3020..0x3024]) == limit
            && Value(t.bytes[0x300c..0x3010]) == (limit + 1) / 2
            && Value(t.bytes[0x301c..0x3020]) == limit / 2)
  {
    hide P.CoreOk, P.Run, Run;
    InitialSeen(m, limit);
    RunsRefine(m, schedule, limit);
    P.NoIncrementLost(Seen(m), schedule, limit);
  }

  function RunRounds(m: Machine, rounds: seq<seq<bool>>, limit: nat): (m': Machine)
    requires Shaped(m)
    ensures Shaped(m')
    decreases |rounds|
  {
    if rounds == [] then m else RunRounds(Run(m, rounds[0], limit), rounds[1..], limit)
  }

  lemma {:induction false} RoundsRefine(m: Machine, rounds: seq<seq<bool>>, limit: nat)
    requires Shaped(m) && P.Inv(Seen(m), limit) && limit < WORD
    ensures Seen(RunRounds(m, rounds, limit)) == P.RunRounds(Seen(m), rounds, limit)
    decreases |rounds|
  {
    hide P.Inv, P.Run, Run, View;
    if rounds != [] {
      RunsRefine(m, rounds[0], limit);
      P.RunKeeps(Seen(m), rounds[0], limit);
      RoundsRefine(Run(m, rounds[0], limit), rounds[1..], limit);
    }
  }

  /** Both cores finish on bytes too, and the bytes then spell the limit and both cores' exact shares. */
  lemma BytesFinish(m: Machine, rounds: seq<seq<bool>>, limit: nat)
    requires Initial(m) && limit < WORD && P.Fair(rounds) && |rounds| >= 41 * limit + 122
    ensures var bytes := RunRounds(m, rounds, limit).bytes;
      && Value(bytes[0x3020..0x3024]) == limit
      && Value(bytes[0x300c..0x3010]) == (limit + 1) / 2 && Value(bytes[0x301c..0x3020]) == limit / 2
      && Value(bytes[0x3008..0x300c]) == 1 && Value(bytes[0x3018..0x301c]) == 1
  {
    hide P.Inv;
    InitialSeen(m, limit);
    RoundsRefine(m, rounds, limit);
    P.BothFinish(Seen(m), rounds, limit);
  }
}
