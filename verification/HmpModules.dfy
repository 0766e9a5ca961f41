/**
 `hmp_signals` and `bus` as objects: register banks and memories are byte arrays changed in place, signals
 are driven one by one, and each transaction is proved to do what the specification of an access says.
 */
module HmpModules {
  import opened LittleEndian
  import opened HmpSignals

  /** The generic payload of one blocking transaction. */
  class Payload {
    const command: Command
    var address: nat
    const data: array<Byte>
    var status: Status

    constructor (command: Command, address: nat, data: array<Byte>)
      ensures this.command == command && this.address == address && this.data == data
    {
      this.command, this.address, this.data, status := command, address, data, Ok;
    }
  }

  /** `memcpy` between two different buffers. */
  method MemCopy(to: array<Byte>, at: nat, from: array<Byte>, start: nat, n: nat)
    requires to != from && at + n <= to.Length && start + n <= from.Length
    modifies to
    ensures to[..] == Splice(old(to[..]), at, from[..][start..start + n])
    ensures at == 0 && n == to.Length ==> to[..] == from[..][start..start + n]
    ensures start == 0 && n == from.Length ==> to[..] == Splice(old(to[..]), at, from[..])
  {
    forall i | 0 <= i < n { to[at + i] := from[start + i]; }
    assert to[..] == Splice(old(to[..]), at, from[..][start..start + n]);
    assert start == 0 && n == from.Length ==> from[..][start..start + n] == from[..];
  }

  /** One core's bank, memory and signals. */
  class SignalBlock {
    const core: Core
    const controlRegisters: array<Byte>
    const memory: array<Byte>
    const interruptInputs: array<bool>
    var resetIn: bool
    var nmiIn: bool
    var bootAddress: nat
    var clockPeriod: nat
    var cpuWait: bool
    var systemBusWritePending: bool
    var systemBusWriteNotified: bool

    ghost predicate Valid() {
      && controlRegisters.Length == CONTROL_SIZE && memory.Length == MEMORY_SIZE
      && interruptInputs.Length == NUM_INTERRUPTS && controlRegisters != memory
    }

    ghost function Driving(): Signals reads this, interruptInputs {
      Signals(interruptInputs[..], resetIn, nmiIn, bootAddress, clockPeriod, cpuWait)
    }

    ghost function Abs(): Side reads this, controlRegisters, memory, interruptInputs {
      Side(controlRegisters[..], memory[..], Driving(), systemBusWritePending)
    }

    constructor (core: Core)
      ensures Valid() && this.core == core && Abs() == InitialSide(core) && !systemBusWriteNotified
      ensures fresh(controlRegisters) && fresh(memory) && fresh(interruptInputs)
    {
      this.core := core;
      var bootValue := if core.RiscV? then DEFAULT_BOOT_ADDRESS else DEFAULT_VTOR;
      var bank := Splice(Splice(Zeros(CONTROL_SIZE), CLOCK_PERIOD_OFFSET, Bytes(DefaultClock(core), 4)),
                         BOOT_ADDRESS_OFFSET, Bytes(bootValue, BootSize(core)));
      controlRegisters := new Byte[CONTROL_SIZE](i requires 0 <= i < CONTROL_SIZE => bank[i]);
      memory := new Byte[MEMORY_SIZE](_ => 0);
      interruptInputs := new bool[NUM_INTERRUPTS](_ => false);
      resetIn, nmiIn, bootAddress, clockPeriod, cpuWait := false, false, bootValue, DefaultClock(core), false;
      systemBusWritePending, systemBusWriteNotified := false, false;
      new;
      assert controlRegisters[..] == bank && memory[..] == Zeros(MEMORY_SIZE);
      assert interruptInputs[..] == seq(NUM_INTERRUPTS, _ => false);
    }

    /** `apply_control_write`: drives the signals whose registers the write overlaps. */
    method ApplyControlWrite(offset: nat, length: nat)
      requires Valid() && offset + length <= CONTROL_SIZE
      modifies this, interruptInputs
      ensures Driving() == Redrive(core, controlRegisters[..], old(Driving()), offset, length)
      ensures systemBusWritePending == (old(systemBusWritePending) || Triggers(controlRegisters[..], offset, length))
      ensures systemBusWriteNotified == (old(systemBusWriteNotified) || Triggers(controlRegisters[..], offset, length))
    {
      hide Value;
      for i := 0 to NUM_INTERRUPTS
        modifies interruptInputs
        invariant forall j | 0 <= j < i ::
                    interruptInputs[j] ==
                    if Overlaps(offset, length, j, 1) then controlRegisters[j] != 0 else old(interruptInputs[j])
        invariant forall j | i <= j < NUM_INTERRUPTS :: interruptInputs[j] == old(interruptInputs[j])
      {
        if Overlaps(offset, length, i, 1) {
          interruptInputs[i] := controlRegisters[i] != 0;
        }
      }
      DriveLevels(offset, length);
      DriveWords(offset, length);
      assert Driving().interrupts == Redrive(core, controlRegisters[..], old(Driving()), offset, length).interrupts;
      if Overlaps(offset, length, SYSTEM_BUS_TRIGGER_OFFSET, 4) {
        var trigger := Word(SYSTEM_BUS_TRIGGER_OFFSET, 4);
        if trigger != 0 {
          systemBusWritePending, systemBusWriteNotified := true, true;
        }
      }
    }

    /** The little-endian word that `memcpy` reads from the registers. */
    method Word(offset: nat, size: nat) returns (value: nat)
      requires Valid() && offset + size <= CONTROL_SIZE
      ensures value == Value(controlRegisters[..][offset..offset + size])
    {
      value := Value(controlRegisters[offset..offset + size]);
      assert controlRegisters[offset..offset + size] == controlRegisters[..][offset..offset + size];
    }

    /** The signals with a register of one byte. */
    method DriveLevels(offset: nat, length: nat)
      requires Valid()
      modifies this`resetIn, this`nmiIn, this`cpuWait
      ensures resetIn == if Overlaps(offset, length, RESET_OFFSET, 1)
                         then Level(controlRegisters[..], RESET_OFFSET) else old(resetIn)
      ensures nmiIn == if Overlaps(offset, length, NMI_OFFSET, 1)
                       then Level(controlRegisters[..], NMI_OFFSET) else old(nmiIn)
      ensures cpuWait == if core.Arm? && Overlaps(offset, length, CPU_WAIT_OFFSET, 1)
                         then Level(controlRegisters[..], CPU_WAIT_OFFSET) else old(cpuWait)
    {
      if Overlaps(offset, length, RESET_OFFSET, 1) {
        resetIn := controlRegisters[RESET_OFFSET] != 0;
      }
      if Overlaps(offset, length, NMI_OFFSET, 1) {
        nmiIn := controlRegisters[NMI_OFFSET] != 0;
      }
      if core.Arm? && Overlaps(offset, length, CPU_WAIT_OFFSET, 1) {
        cpuWait := controlRegisters[CPU_WAIT_OFFSET] != 0;
      }
    }

    /** The signals with a register of several bytes. */
    method DriveWords(offset: nat, length: nat)
      requires Valid()
      modifies this`bootAddress, this`clockPeriod
      ensures bootAddress == if Overlaps(offset, length, BOOT_ADDRESS_OFFSET, 8)
        then Value(controlRegisters[..][BOOT_ADDRESS_OFFSET..BOOT_ADDRESS_OFFSET + BootSize(core)])
        else old(bootAddress)
      ensures clockPeriod == if Overlaps(offset, length, CLOCK_PERIOD_OFFSET, 4)
        then Value(controlRegisters[..][CLOCK_PERIOD_OFFSET..CLOCK_PERIOD_OFFSET + 4]) else old(clockPeriod)
    {
      if Overlaps(offset, length, BOOT_ADDRESS_OFFSET, 8) {
        bootAddress := Word(BOOT_ADDRESS_OFFSET, BootSize(core));
      }
      if Overlaps(offset, length, CLOCK_PERIOD_OFFSET, 4) {
        clockPeriod := Word(CLOCK_PERIOD_OFFSET, 4);
      }
    }

    /** The payload's buffer is none of the block's arrays. */
    ghost predicate Apart(p: Payload) {
      p.data != controlRegisters && p.data != memory
    }

    /** `handle_control`, after its zero-time wait. */
    method HandleControl(p: Payload, systemResetRequest: bool)
      requires Valid() && Apart(p)
      modifies this, controlRegisters, interruptInputs, p`status, p.data
      ensures (Abs(), p.status, p.data[..]) ==
              Control(core, old(Abs()), p.command, p.address, p.data.Length, old(p.data[..]), systemResetRequest)
      ensures systemBusWriteNotified == (old(systemBusWriteNotified) ||
                (p.command.Write? && p.status.Ok? && Triggers(controlRegisters[..], p.address, p.data.Length)))
    {
      var offset, length := p.address, p.data.Length;
      if offset > controlRegisters.Length || length > controlRegisters.Length - offset {
        p.status := AddressError;
        return;
      }
      match p.command {
        case Read =>
          if core.Arm? {
            controlRegisters[SYSTEM_RESET_REQUEST_OFFSET] := if systemResetRequest then 1 else 0;
          }
          MemCopy(p.data, 0, controlRegisters, offset, length);
          p.status := Ok;
        case Write =>
          MemCopy(controlRegisters, offset, p.data, 0, length);
          ApplyControlWrite(offset, length);
          p.status := Ok;
        case Ignore => p.status := CommandError;
      }
    }

    /** `handle_memory`. */
    method HandleMemory(p: Payload)
      requires Valid() && Apart(p)
      modifies memory, p`status, p.data
      ensures (Abs(), p.status, p.data[..]) ==
              HmpSignals.Memory(old(Abs()), p.command, p.address, p.data.Length, old(p.data[..]))
    {
      var offset, length := p.address, p.data.Length;
      if offset > memory.Length || length > memory.Length - offset {
        p.status := AddressError;
        return;
      }
      match p.command {
        case Read =>
          MemCopy(p.data, 0, memory, offset, length);
          p.status := Ok;
        case Write =>
          MemCopy(memory, offset, p.data, 0, length);
          p.status := Ok;
        case Ignore => p.status := CommandError;
      }
    }

    /** `bus::b_transport`: the memory window is seen from zero, and the payload gets its address back. */
    method BTransport(p: Payload, systemResetRequest: bool)
      requires Valid() && Apart(p) && Driven(core, Abs())
      modifies this, controlRegisters, memory, interruptInputs, p, p.data
      ensures (Abs(), p.status, p.data[..]) ==
              Bus(core, old(Abs()), p.command, old(p.address), p.data.Length, old(p.data[..]), systemResetRequest)
      ensures p.address == old(p.address) && Driven(core, Abs())
      ensures systemBusWriteNotified == (old(systemBusWriteNotified) || (p.address < CONTROL_SIZE &&
                p.command.Write? && p.status.Ok? && Triggers(controlRegisters[..], p.address, p.data.Length)))
    {
      BusKeepsDriven(core, Abs(), p.command, p.address, p.data.Length, p.data[..], systemResetRequest);
      var address := p.address;
      if address < 0x1000 {
        HandleControl(p, systemResetRequest);
      } else {
        p.address := address - 0x1000;
        HandleMemory(p);
        p.address := address;
      }
    }
  }
}
