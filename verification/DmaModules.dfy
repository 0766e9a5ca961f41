/**
 The controller `dmac` as an object: its registers, its pins and its thread, step by step as they interleave with
 register writes, and its copy loop as a whole on a bus that nobody else uses.
 */
module DmaModules {
  import opened LittleEndian
  import opened DmaCopy
  import opened DmaController

  class Dmac {
    const memory: array<Byte>      // behind the bus
    var addrSrc: nat
    var addrDst: nat
    var dataLen: nat
    var thread: Place
    var busRequest: bool
    var busFree: bool
    ghost var before: seq<Byte>
    ghost var log: seq<Mark>

    ghost function Abs(): State reads this, memory {
      State(addrSrc, addrDst, dataLen, thread, busRequest, busFree, memory[..], before, log)
    }

    constructor (memory: array<Byte>)
      ensures this.memory == memory && Initial(Abs())
    {
      this.memory := memory;
      addrSrc, addrDst, dataLen, thread, busRequest, busFree := 0, 0, 0, Idle, false, false;
      before, log := [], [];
    }

    /** `receive_b_transport`; any other address or command fails an assertion of the code. */
    method ReceiveBTransport(address: nat, value: nat)
      requires Enabled(Abs(), WriteRegister(address, value))
      modifies this`addrSrc, this`addrDst, this`dataLen, this`thread, this`log
      ensures Abs() == Next(old(Abs()), WriteRegister(address, value))
    {
      match address {
        case 0x4 => addrSrc := value;
        case 0x8 => addrDst := value;
        case 0xC => dataLen := value;
        case _ =>
          log := log + [Start(thread.Idle?)];
          if thread.Idle? {
            thread := Started;
          }
      }
    }

    /** The bus-free pin changes; the thread sees rising edges while it waits for one. */
    method BusFreeChanges(level: bool)
      modifies this`busFree, this`thread, this`log
      ensures Abs() == Next(old(Abs()), SetBusFree(level))
    {
      if level && !busFree && thread.Asking? {
        thread := Granted;
        log := log + [Free];
      }
      busFree := level;
    }

    /** `dmac_loop` runs to its next wait or bus call. */
    method LoopProceeds()
      requires Enabled(Abs(), Proceed)
      modifies this
      ensures Abs() == Next(old(Abs()), Proceed)
    {
      match thread {
        case Started =>
          busRequest, thread := true, Asking;
          log := log + [Request];
        case Granted =>
          thread, before := Looping(addrSrc, addrDst, 0), memory[..];
          log := log + [Begin(addrSrc, addrDst)];
        case Looping(src, dst, i) =>
          if i < dataLen {
            thread := Reading(src, dst, i);
          } else {
            busRequest, thread := false, Idle;
            log := log + [Drop];
          }
      }
    }

    /** The bus call that `dmac_loop` is in returns. */
    method BusCallReturns()
      requires Enabled(Abs(), BusReturns)
      modifies this`thread, this`log, memory
      ensures Abs() == Next(old(Abs()), BusReturns)
    {
      match thread {
        case Reading(src, dst, i) =>
          if Address(src, i) >= memory.Length {
            thread, log := Dead, log + [Failed];
          } else {
            thread, log := Writing(src, dst, i, memory[Address(src, i)]), log + [ReadAt(Address(src, i))];
          }
        case Writing(src, dst, i, data) =>
          if Address(dst, i) >= memory.Length {
            thread, log := Dead, log + [Failed];
          } else {
            memory[Address(dst, i)] := data;
            thread, log := Looping(src, dst, i + 1), log + [WroteAt(Address(dst, i))];
          }
      }
    }

    /**
     The copy part of `dmac_loop` in one go: memory becomes what `After` says for the turns made, all of them unless a
     bus access fails; then the code gives up at that turn with the bus still requested.
     */
    method CopyLoop() returns (ok: bool, turns: nat)
      requires thread.Granted? && busRequest
      requires memory.Length <= 0x1_0000_0000 && addrSrc < 0x1_0000_0000 && addrDst < 0x1_0000_0000
      modifies this`busRequest, this`thread, memory
      ensures turns <= dataLen && (forall i | 0 <= i < turns :: Reaches(memory.Length, addrSrc, addrDst, i))
      ensures memory[..] == After(old(memory[..]), addrSrc, addrDst, turns)
      ensures ok <==> turns == dataLen
      ensures !ok ==> !Reaches(memory.Length, addrSrc, addrDst, turns)
      ensures busRequest == !ok && thread == if ok then Idle else Dead
    {
      var rAddr, wAddr := addrSrc, addrDst;
      turns := 0;
      while turns < dataLen
        modifies memory
        invariant turns <= dataLen
        invariant rAddr == Address(addrSrc, turns) && wAddr == Address(addrDst, turns)
        invariant forall i | 0 <= i < turns :: Reaches(memory.Length, addrSrc, addrDst, i)
        invariant memory[..] == After(old(memory[..]), addrSrc, addrDst, turns)
      {
        if rAddr >= memory.Length || wAddr >= memory.Length {
          break;
        }
        var data := memory[rAddr];
        memory[wAddr] := data;
        NextAddress(addrSrc, turns);
        NextAddress(addrDst, turns);
        rAddr, wAddr := (rAddr + 1) % 0x1_0000_0000, (wAddr + 1) % 0x1_0000_0000;
        turns := turns + 1;
      }
      ok := turns == dataLen;
      if ok {
        busRequest, thread := false, Idle;
      } else {
        thread := Dead;
      }
    }
  }

  lemma NextAddress(base: nat, i: nat)
    ensures Address(base, i + 1) == (Address(base, i) + 1) % 0x1_0000_0000
  {
  }
}
