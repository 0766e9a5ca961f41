/**
 The signal control block `hmp_signals` and its bus. A control write re-drives only the signals whose
 registers it overlaps; the block must nevertheless always drive what its whole register bank says.
 */
module HmpSignals {
  import opened LittleEndian

  datatype Core = RiscV | Arm

  datatype Status = Ok | AddressError | CommandError
  datatype Command = Read | Write | Ignore

  const NUM_INTERRUPTS: nat := 16
  const RESET_OFFSET: nat := 0x100
  const NMI_OFFSET: nat := 0x104
  const BOOT_ADDRESS_OFFSET: nat := 0x108
  const CLOCK_PERIOD_OFFSET: nat := 0x110
  const SYSTEM_BUS_TRIGGER_OFFSET: nat := 0x114
  const CPU_WAIT_OFFSET: nat := 0x118
  const SYSTEM_RESET_REQUEST_OFFSET: nat := 0x11c
  const CONTROL_SIZE: nat := 0x1000
  const MEMORY_SIZE: nat := 0x1000
  const DEFAULT_BOOT_ADDRESS: nat := 0x8000_0000
  const DEFAULT_VTOR: nat := 0x2000_0000

  /** The signals of one core; `boot` is the boot address of RISC-V and the vector table offset of Arm. */
  datatype Signals = Signals(interrupts: seq<bool>, reset: bool, nmi: bool, boot: nat, clock: nat, cpuWait: bool)

  /** One core's side of the block. */
  datatype Side = Side(bank: seq<Byte>, memory: seq<Byte>, signals: Signals, pending: bool)

  predicate SideShaped(s: Side) {
    |s.bank| == CONTROL_SIZE && |s.memory| == MEMORY_SIZE && |s.signals.interrupts| == NUM_INTERRUPTS
  }

  function DefaultClock(core: Core): nat { if core.RiscV? then 10 else 20 }

  function BootSize(core: Core): nat { if core.RiscV? then 8 else 4 }

  // ---------------------------------------------------------------- the reference: decode everything

  function Level(bank: seq<Byte>, offset: nat): bool
    requires offset < |bank|
  {
    bank[offset] != 0
  }

  /** Every signal, read from the whole bank. */
  function FullDecode(core: Core, bank: seq<Byte>): Signals
    requires |bank| == CONTROL_SIZE
  {
    Signals(seq(NUM_INTERRUPTS, i requires 0 <= i < NUM_INTERRUPTS => Level(bank, i)),
            Level(bank, RESET_OFFSET),
            Level(bank, NMI_OFFSET),
            Value(bank[BOOT_ADDRESS_OFFSET..BOOT_ADDRESS_OFFSET + BootSize(core)]),
            Value(bank[CLOCK_PERIOD_OFFSET..CLOCK_PERIOD_OFFSET + 4]),
            core.Arm? && Level(bank, CPU_WAIT_OFFSET))
  }

  function Trigger(bank: seq<Byte>): nat
    requires |bank| == CONTROL_SIZE
  {
    Value(bank[SYSTEM_BUS_TRIGGER_OFFSET..SYSTEM_BUS_TRIGGER_OFFSET + 4])
  }

  // ---------------------------------------------------------------- the fast form: only what overlaps

  predicate Overlaps(offset: nat, length: nat, start: nat, size: nat) {
    offset < start + size && start < offset + length
  }

  /** The signals after `apply_control_write`. */
  function Redrive(core: Core, bank: seq<Byte>, old_: Signals, offset: nat, length: nat): Signals
    requires |bank| == CONTROL_SIZE && |old_.interrupts| == NUM_INTERRUPTS
  {
    Signals(
      seq(NUM_INTERRUPTS, i requires 0 <= i < NUM_INTERRUPTS =>
        if Overlaps(offset, length, i, 1) then Level(bank, i) else old_.interrupts[i]),
      if Overlaps(offset, length, RESET_OFFSET, 1) then Level(bank, RESET_OFFSET) else old_.reset,
      if Overlaps(offset, length, NMI_OFFSET, 1) then Level(bank, NMI_OFFSET) else old_.nmi,
      if Overlaps(offset, length, BOOT_ADDRESS_OFFSET, 8)
      then Value(bank[BOOT_ADDRESS_OFFSET..BOOT_ADDRESS_OFFSET + BootSize(core)]) else old_.boot,
      if Overlaps(offset, length, CLOCK_PERIOD_OFFSET, 4)
      then Value(bank[CLOCK_PERIOD_OFFSET..CLOCK_PERIOD_OFFSET + 4]) else old_.clock,
      if core.Arm? && Overlaps(offset, length, CPU_WAIT_OFFSET, 1) then Level(bank, CPU_WAIT_OFFSET) else old_.cpuWait)
  }

  predicate Triggers(bank: seq<Byte>, offset: nat, length: nat)
    requires |bank| == CONTROL_SIZE
  {
    Overlaps(offset, length, SYSTEM_BUS_TRIGGER_OFFSET, 4) && Trigger(bank) != 0
  }

  /** An access at the control port: the side afterwards, the status and the bytes read. */
  function Control(core: Core, s: Side, command: Command, offset: nat, length: nat, data: seq<Byte>,
                   resetRequest: bool): (r: (Side, Status, seq<Byte>))
    requires SideShaped(s) && |data| == length
    ensures SideShaped(r.0)
  {
    if offset > CONTROL_SIZE || length > CONTROL_SIZE - offset then (s, AddressError, data)
    else
      match command
      case Read =>
        var bank := if core.Arm? then s.bank[SYSTEM_RESET_REQUEST_OFFSET := if resetRequest then 1 else 0] else s.bank;
        (s.(bank := bank), Ok, bank[offset..offset + length])
      case Write =>
        var bank := Splice(s.bank, offset, data);
        (s.(bank := bank, signals := Redrive(core, bank, s.signals, offset, length),
            pending := s.pending || Triggers(bank, offset, length)), Ok, data)
      case Ignore => (s, CommandError, data)
  }

  /** An access at the memory port. */
  function Memory(s: Side, command: Command, offset: nat, length: nat, data: seq<Byte>): (r: (Side, Status, seq<Byte>))
    requires SideShaped(s) && |data| == length
    ensures SideShaped(r.0)
  {
    if offset > MEMORY_SIZE || length > MEMORY_SIZE - offset then (s, AddressError, data)
    else
      match command
      case Read => (s, Ok, s.memory[offset..offset + length])
      case Write => (s.(memory := Splice(s.memory, offset, data)), Ok, data)
      case Ignore => (s, CommandError, data)
  }

  /** The bus in front of each core's ports: addresses below 0x1000 are control. */
  function Bus(core: Core, s: Side, command: Command, address: nat, length: nat, data: seq<Byte>, resetRequest: bool):
      (r: (Side, Status, seq<Byte>))
    requires SideShaped(s) && |data| == length
    ensures SideShaped(r.0)
  {
    if address < CONTROL_SIZE then Control(core, s, command, address, length, data, resetRequest)
    else Memory(s, command, address - CONTROL_SIZE, length, data)
  }

  // ---------------------------------------------------------------- the fast form agrees with the reference

  /** A signal whose register is not overlapped need not be looked at. */
  lemma RedriveExact(core: Core, bank: seq<Byte>, offset: nat, data: seq<Byte>)
    requires |bank| == CONTROL_SIZE && offset + |data| <= CONTROL_SIZE
    ensures var after := Splice(bank, offset, data);
      Redrive(core, after, FullDecode(core, bank), offset, |data|) == FullDecode(core, after)
  {
    var after := Splice(bank, offset, data);
    var r := Redrive(core, after, FullDecode(core, bank), offset, |data|);
    assert r.interrupts == FullDecode(core, after).interrupts;
    if !Overlaps(offset, |data|, BOOT_ADDRESS_OFFSET, 8) {
      SpliceApart(bank, offset, data, BOOT_ADDRESS_OFFSET, BootSize(core));
    }
    if !Overlaps(offset, |data|, CLOCK_PERIOD_OFFSET, 4) {
      SpliceApart(bank, offset, data, CLOCK_PERIOD_OFFSET, 4);
    }
  }

  predicate Driven(core: Core, s: Side) {
    SideShaped(s) && s.signals == FullDecode(core, s.bank)
  }

  /** Every access keeps the signals equal to the full decode; reads too, although an Arm read stores a level. */
  lemma BusKeepsDriven(core: Core, s: Side, command: Command, address: nat, length: nat, data: seq<Byte>,
                       resetRequest: bool)
    requires Driven(core, s) && |data| == length
    ensures Driven(core, Bus(core, s, command, address, length, data, resetRequest).0)
  {
    if address < CONTROL_SIZE && length <= CONTROL_SIZE - address {
      match command
      case Write => RedriveExact(core, s.bank, address, data);
      case Read =>
        var bank := s.bank[SYSTEM_RESET_REQUEST_OFFSET := if resetRequest then 1 else 0];
        assert FullDecode(core, bank).interrupts == FullDecode(core, s.bank).interrupts;
        assert bank[BOOT_ADDRESS_OFFSET..BOOT_ADDRESS_OFFSET + BootSize(core)]
            == s.bank[BOOT_ADDRESS_OFFSET..BOOT_ADDRESS_OFFSET + BootSize(core)];
        assert bank[CLOCK_PERIOD_OFFSET..CLOCK_PERIOD_OFFSET + 4]
            == s.bank[CLOCK_PERIOD_OFFSET..CLOCK_PERIOD_OFFSET + 4];
      case Ignore =>
    }
  }

  // ---------------------------------------------------------------- runs over both cores

  datatype Access = Access(core: Core, command: Command, address: nat, data: seq<Byte>, resetRequest: bool)

  /** Both sides of the block. */
  datatype Block = Block(riscV: Side, arm: Side)

  function SideOf(b: Block, core: Core): Side { if core.RiscV? then b.riscV else b.arm }

  predicate Shaped(b: Block) { SideShaped(b.riscV) && SideShaped(b.arm) }

  function Serve(b: Block, a: Access): (r: Block)
    requires Shaped(b)
    ensures Shaped(r)
  {
    var s := Bus(a.core, SideOf(b, a.core), a.command, a.address, |a.data|, a.data, a.resetRequest).0;
    if a.core.RiscV? then b.(riscV := s) else b.(arm := s)
  }

  function ServeAll(b: Block, accesses: seq<Access>): (r: Block)
    requires Shaped(b)
    ensures Shaped(r)
  {
    if accesses == [] then b else Serve(ServeAll(b, accesses[..|accesses| - 1]), accesses[|accesses| - 1])
  }

  function Zeros(n: nat): seq<Byte> { seq(n, _ => 0) }

  /** The constructor's state: everything zero but the boot registers and the clock periods. */
  function InitialSide(core: Core): (s: Side)
    ensures SideShaped(s)
  {
    var boot := if core.RiscV? then DEFAULT_BOOT_ADDRESS else DEFAULT_VTOR;
    var bank := Splice(Splice(Zeros(CONTROL_SIZE), CLOCK_PERIOD_OFFSET, Bytes(DefaultClock(core), 4)),
                       BOOT_ADDRESS_OFFSET, Bytes(boot, BootSize(core)));
    Side(bank, Zeros(MEMORY_SIZE),
         Signals(seq(NUM_INTERRUPTS, _ => false), false, false, boot, DefaultClock(core), false), false)
  }

  const INITIAL: Block := Block(InitialSide(RiscV), InitialSide(Arm))

  lemma Powers()
    ensures Power(4) == 0x1_0000_0000 && Power(8) == 0x1_0000_0000_0000_0000
  {
    assert Power(2) == 0x1_0000;
    assert Power(4) == 256 * (256 * Power(2));
    assert Power(6) == 256 * (256 * Power(4));
    assert Power(8) == 256 * (256 * Power(6));
  }

  /** Writing `data` into a bank that is zero elsewhere. */
  lemma ZeroOutside(bank: seq<Byte>, offset: nat, data: seq<Byte>, i: nat)
    requires offset + |data| <= |bank| && i < |bank| && bank[i] == 0
    requires i < offset || offset + |data| <= i
    ensures Splice(bank, offset, data)[i] == 0
  {
  }

  lemma InitialWords(core: Core)
    ensures var (bank, boot) := (InitialSide(core).bank, InitialSide(core).signals.boot);
      && Value(bank[BOOT_ADDRESS_OFFSET..BOOT_ADDRESS_OFFSET + BootSize(core)]) == boot
      && Value(bank[CLOCK_PERIOD_OFFSET..CLOCK_PERIOD_OFFSET + 4]) == DefaultClock(core)
  {
    hide Value, Bytes, Splice;
    var boot := InitialSide(core).signals.boot;
    var clocked := Splice(Zeros(CONTROL_SIZE), CLOCK_PERIOD_OFFSET, Bytes(DefaultClock(core), 4));
    Powers();
    ValueOfBytes(boot, BootSize(core));
    ValueOfBytes(DefaultClock(core), 4);
    SpliceAt(clocked, BOOT_ADDRESS_OFFSET, Bytes(boot, BootSize(core)));
    SpliceAt(Zeros(CONTROL_SIZE), CLOCK_PERIOD_OFFSET, Bytes(DefaultClock(core), 4));
    SpliceApart(clocked, BOOT_ADDRESS_OFFSET, Bytes(boot, BootSize(core)), CLOCK_PERIOD_OFFSET, 4);
  }

  lemma InitialLevel(core: Core, i: nat)
    requires i < BOOT_ADDRESS_OFFSET || i == CPU_WAIT_OFFSET
    ensures !Level(InitialSide(core).bank, i)
  {
    hide Bytes, Splice;
    var boot := InitialSide(core).signals.boot;
    var clock := Bytes(DefaultClock(core), 4);
    ZeroOutside(Zeros(CONTROL_SIZE), CLOCK_PERIOD_OFFSET, clock, i);
    var clocked := Splice(Zeros(CONTROL_SIZE), CLOCK_PERIOD_OFFSET, clock);
    ZeroOutside(clocked, BOOT_ADDRESS_OFFSET, Bytes(boot, BootSize(core)), i);
  }

  /** The initial values of the signals are those the initial bank decodes to. */
  lemma InitialDriven(core: Core)
    ensures Driven(core, InitialSide(core))
  {
    hide Value, Bytes, Splice, Zeros, Level;
    var s := InitialSide(core);
    var d := FullDecode(core, s.bank);
    InitialWords(core);
    InitialLevel(core, RESET_OFFSET);
    InitialLevel(core, NMI_OFFSET);
    InitialLevel(core, CPU_WAIT_OFFSET);
    forall i | 0 <= i < NUM_INTERRUPTS ensures !d.interrupts[i] {
      InitialLevel(core, i);
    }
    assert d.interrupts == s.signals.interrupts;
  }

  /**
   After any sequence of bus accesses of either core, of any kind, address and length, every driven signal of
   both cores equals the full decode of that core's register bank.
   */
  lemma {:induction false} AlwaysDriven(accesses: seq<Access>)
    ensures var b := ServeAll(INITIAL, accesses); Driven(RiscV, b.riscV) && Driven(Arm, b.arm)
  {
    if accesses == [] {
      InitialDriven(RiscV);
      InitialDriven(Arm);
    } else {
      AlwaysDriven(accesses[..|accesses| - 1]);
      var b := ServeAll(INITIAL, accesses[..|accesses| - 1]);
      var a := accesses[|accesses| - 1];
      BusKeepsDriven(a.core, SideOf(b, a.core), a.command, a.address, |a.data|, a.data, a.resetRequest);
    }
  }

  function Of(accesses: seq<Access>, core: Core): seq<Access> {
    if accesses == [] then []
    else Of(accesses[..|accesses| - 1], core)
         + if accesses[|accesses| - 1].core == core then [accesses[|accesses| - 1]] else []
  }

  /** The cores do not disturb each other: a core's side depends on its own accesses only. */
  lemma {:induction false} CoresApart(accesses: seq<Access>, core: Core)
    ensures SideOf(ServeAll(INITIAL, accesses), core) == SideOf(ServeAll(INITIAL, Of(accesses, core)), core)
  {
    if accesses != [] {
      var before := accesses[..|accesses| - 1];
      var a := accesses[|accesses| - 1];
      CoresApart(before, core);
      var own := Of(before, core);
      if a.core == core {
        assert (own + [a])[..|own|] == own;
      } else {
        assert Of(accesses, core) == own;
      }
    }
  }

  // ---------------------------------------------------------------- the registers, from the accesses alone

  /** The access is a control write that puts a byte at offset `i`. */
  predicate WritesByte(a: Access, core: Core, i: nat) {
    a.core == core && a.command.Write? && a.address + |a.data| <= 0x1000 && a.address <= i < a.address + |a.data|
  }

  /** The bytes of the clock period and of the boot registers that are not zero at first. */
  function Preset(core: Core, i: nat): Byte {
    if i == 0x110 then (if core.RiscV? then 10 else 20)
    else if i == 0x10b then (if core.RiscV? then 0x80 else 0x20)
    else 0
  }

  /** The reference: the byte last written at offset `i` of the core's registers, at first the preset one. */
  function LastWritten(accesses: seq<Access>, core: Core, i: nat): Byte {
    if accesses == [] then Preset(core, i)
    else
      var a := accesses[|accesses| - 1];
      if WritesByte(a, core, i) then a.data[i - a.address] else LastWritten(accesses[..|accesses| - 1], core, i)
  }

  lemma PresetBytes()
    ensures Bytes(10, 4) == [10, 0, 0, 0] && Bytes(20, 4) == [20, 0, 0, 0]
    ensures Bytes(0x8000_0000, 8) == [0, 0, 0, 0x80, 0, 0, 0, 0] && Bytes(0x2000_0000, 4) == [0, 0, 0, 0x20]
  {
    assert Bytes(0, 0) == [] && Bytes(0, 1) == [0] && Bytes(0, 2) == [0, 0] && Bytes(0, 3) == [0, 0, 0];
    assert Bytes(0, 4) == [0, 0, 0, 0];
    assert Bytes(0x80, 5) == [0x80, 0, 0, 0, 0] && Bytes(0x20, 1) == [0x20];
    assert Bytes(0x8000, 6) == [0, 0x80, 0, 0, 0, 0] && Bytes(0x2000, 2) == [0, 0x20];
    assert Bytes(0x80_0000, 7) == [0, 0, 0x80, 0, 0, 0, 0] && Bytes(0x20_0000, 3) == [0, 0, 0x20];
  }

  lemma InitialBank(core: Core, i: nat)
    requires i < CONTROL_SIZE
    ensures InitialSide(core).bank[i] == Preset(core, i)
  {
    hide Bytes;
    PresetBytes();
  }

  /** One byte of the bank after one access of its core. */
  lemma BankAfter(core: Core, s: Side, a: Access, i: nat)
    requires SideShaped(s) && i < CONTROL_SIZE && a.core == core && (core.RiscV? || i != SYSTEM_RESET_REQUEST_OFFSET)
    ensures Bus(core, s, a.command, a.address, |a.data|, a.data, a.resetRequest).0.bank[i]
         == if WritesByte(a, core, i) then a.data[i - a.address] else s.bank[i]
  {
    hide Redrive, Triggers;
  }

  /** Every register byte but the Arm reset request is the one last written. */
  lemma {:induction false} BankIsLastWritten(accesses: seq<Access>, core: Core, i: nat)
    requires i < 0x1000 && (core.RiscV? || i != 0x11c)
    ensures SideOf(ServeAll(INITIAL, accesses), core).bank[i] == LastWritten(accesses, core, i)
  {
    hide Bus, InitialSide, Preset;
    if accesses == [] {
      InitialBank(core, i);
    } else {
      var before := accesses[..|accesses| - 1];
      var a := accesses[|accesses| - 1];
      BankIsLastWritten(before, core, i);
      if a.core == core { BankAfter(core, SideOf(ServeAll(INITIAL, before), core), a, i); }
    }
  }

  /**
   After any accesses, a control read in range returns at every offset the byte last written there, except that an Arm
   core reads the reset request as the level stands, whatever was written to it: a value stored there is seen on the
   RISC-V side only.
   */
  lemma ReadsBack(accesses: seq<Access>, core: Core, address: nat, data: seq<Byte>, resetRequest: bool, i: nat)
    requires address + |data| <= 0x1000 && i < |data|
    ensures var s := SideOf(ServeAll(INITIAL, accesses), core);
      var (_, status, returned) := Bus(core, s, Read, address, |data|, data, resetRequest);
      && status == Ok && |returned| == |data|
      && returned[i] == if core.Arm? && address + i == 0x11c then (if resetRequest then 1 else 0)
                        else LastWritten(accesses, core, address + i)
  {
    hide ServeAll, LastWritten;
    if core.RiscV? || address + i != SYSTEM_RESET_REQUEST_OFFSET { BankIsLastWritten(accesses, core, address + i); }
  }

  // ---------------------------------------------------------------- the signals, from the accesses alone

  /** The 32-bit word at offset `i`, as last written. */
  function WordWritten(accesses: seq<Access>, core: Core, i: nat): nat {
    LastWritten(accesses, core, i) as int + 0x100 * LastWritten(accesses, core, i + 1) as int
    + 0x1_0000 * LastWritten(accesses, core, i + 2) as int + 0x100_0000 * LastWritten(accesses, core, i + 3) as int
  }

  lemma BankWord(accesses: seq<Access>, core: Core, i: nat)
    requires i + 4 <= 0x11c
    ensures Value(SideOf(ServeAll(INITIAL, accesses), core).bank[i..i + 4]) == WordWritten(accesses, core, i)
  {
    hide ServeAll, LastWritten, Value;
    FourBytes(SideOf(ServeAll(INITIAL, accesses), core).bank[i..i + 4]);
    BankIsLastWritten(accesses, core, i);
    BankIsLastWritten(accesses, core, i + 1);
    BankIsLastWritten(accesses, core, i + 2);
    BankIsLastWritten(accesses, core, i + 3);
  }

  lemma BankLong(accesses: seq<Access>, core: Core)
    ensures Value(SideOf(ServeAll(INITIAL, accesses), core).bank[0x108..0x110])
         == WordWritten(accesses, core, 0x108) + 0x1_0000_0000 * WordWritten(accesses, core, 0x10c)
  {
    hide ServeAll, LastWritten, Value;
    var bank := SideOf(ServeAll(INITIAL, accesses), core).bank;
    EightBytes(bank[0x108..0x110]);
    assert bank[0x108..0x110][..4] == bank[0x108..0x10c] && bank[0x108..0x110][4..] == bank[0x10c..0x110];
    BankWord(accesses, core, 0x108);
    BankWord(accesses, core, 0x10c);
  }

  /**
   After any accesses every signal is what was last written to its register: the interrupts at 0x0 to 0xf, reset at
   0x100, NMI at 0x104, the boot address or vector table at 0x108, the clock period at 0x110, CPUWAIT at 0x118.
   */
  lemma SignalsWritten(accesses: seq<Access>, core: Core)
    ensures var signals := SideOf(ServeAll(INITIAL, accesses), core).signals;
      && |signals.interrupts| == 16
      && (forall i: nat | i < 16 :: signals.interrupts[i] == (LastWritten(accesses, core, i) != 0))
      && signals.reset == (LastWritten(accesses, core, 0x100) != 0)
      && signals.nmi == (LastWritten(accesses, core, 0x104) != 0)
      && signals.boot == WordWritten(accesses, core, 0x108)
                         + (if core.RiscV? then 0x1_0000_0000 * WordWritten(accesses, core, 0x10c) else 0)
      && signals.clock == WordWritten(accesses, core, 0x110)
      && signals.cpuWait == (core.Arm? && LastWritten(accesses, core, 0x118) != 0)
  {
    hide ServeAll, LastWritten, Value, WordWritten;
    AlwaysDriven(accesses);
    var s := SideOf(ServeAll(INITIAL, accesses), core);
    assert Driven(core, s);
    forall i: nat | i < 16 ensures s.signals.interrupts[i] == (LastWritten(accesses, core, i) != 0) {
      BankIsLastWritten(accesses, core, i);
    }
    BankIsLastWritten(accesses, core, 0x100);
    BankIsLastWritten(accesses, core, 0x104);
    BankIsLastWritten(accesses, core, 0x118);
    BankWord(accesses, core, 0x108);
    BankWord(accesses, core, 0x110);
    BankLong(accesses, core);
  }

  /** A write triggers exactly when it overlaps the word at 0x114 and leaves some byte of it nonzero. */
  lemma TriggersExactly(bank: seq<Byte>, offset: nat, length: nat)
    requires |bank| == 0x1000
    ensures Triggers(bank, offset, length) <==>
            && offset < 0x118 && 0x114 < offset + length
            && (bank[0x114] != 0 || bank[0x115] != 0 || bank[0x116] != 0 || bank[0x117] != 0)
  {
    hide Value;
    FourBytes(bank[0x114..0x118]);
  }

  /** Some control write of the core was one that triggers. */
  predicate Triggered(accesses: seq<Access>, core: Core) {
    accesses != [] &&
    (var a := accesses[|accesses| - 1];
     || Triggered(accesses[..|accesses| - 1], core)
     || (&& a.core == core && a.command.Write? && a.address < 0x1000 && a.address + |a.data| <= 0x1000
         && a.address < 0x118 && 0x114 < a.address + |a.data| && WordWritten(accesses, core, 0x114) != 0))
  }

  /** A bus write is requested exactly when some write triggered. */
  lemma {:induction false} RequestedWhenTriggered(accesses: seq<Access>, core: Core)
    ensures SideOf(ServeAll(INITIAL, accesses), core).pending == Triggered(accesses, core)
  {
    hide Value, LastWritten, WordWritten, Redrive, InitialSide, Splice;
    if accesses == [] {
      NotRequestedAtFirst(core);
    } else {
      var before := accesses[..|accesses| - 1];
      var a := accesses[|accesses| - 1];
      RequestedWhenTriggered(before, core);
      BankWord(accesses, core, 0x114);
    }
  }

  lemma NotRequestedAtFirst(core: Core)
    ensures !InitialSide(core).pending
  {
  }

  // ---------------------------------------------------------------- the memory port, from the accesses alone

  /** The byte last written at offset `o` of the core's memory through its own port, at first zero. */
  function MemoryWritten(accesses: seq<Access>, core: Core, o: nat): Byte {
    if accesses == [] then 0
    else
      var a := accesses[|accesses| - 1];
      if a.core == core && a.command.Write? && 0x1000 <= a.address && a.address + |a.data| <= 0x2000
         && a.address <= 0x1000 + o < a.address + |a.data|
      then a.data[0x1000 + o - a.address]
      else MemoryWritten(accesses[..|accesses| - 1], core, o)
  }

  /** One byte of the memory after one access of its core. */
  lemma MemoryAfter(core: Core, s: Side, a: Access, o: nat)
    requires SideShaped(s) && o < 0x1000 && a.core == core
    ensures Bus(core, s, a.command, a.address, |a.data|, a.data, a.resetRequest).0.memory[o]
         == if a.command.Write? && 0x1000 <= a.address && a.address + |a.data| <= 0x2000
               && a.address <= 0x1000 + o < a.address + |a.data|
            then a.data[0x1000 + o - a.address] else s.memory[o]
  {
    hide Redrive, Triggers;
  }

  lemma {:induction false} MemoryIsWritten(accesses: seq<Access>, core: Core, o: nat)
    requires o < 0x1000
    ensures SideOf(ServeAll(INITIAL, accesses), core).memory[o] == MemoryWritten(accesses, core, o)
  {
    hide Bus;
    if accesses != [] {
      var before := accesses[..|accesses| - 1];
      var a := accesses[|accesses| - 1];
      MemoryIsWritten(before, core, o);
      if a.core == core { MemoryAfter(core, SideOf(ServeAll(INITIAL, before), core), a, o); }
    }
  }

  /** After any accesses, a memory read in range returns at every place the byte last written there. */
  lemma MemoryReadsBack(accesses: seq<Access>, core: Core, address: nat, data: seq<Byte>, resetRequest: bool, i: nat)
    requires 0x1000 <= address && address + |data| <= 0x2000 && i < |data|
    ensures var s := SideOf(ServeAll(INITIAL, accesses), core);
      var (_, status, returned) := Bus(core, s, Read, address, |data|, data, resetRequest);
      status == Ok && |returned| == |data| && returned[i] == MemoryWritten(accesses, core, address - 0x1000 + i)
  {
    hide ServeAll, MemoryWritten, Control;
    MemoryIsWritten(accesses, core, address - 0x1000 + i);
  }

  /**
   Which accesses are served: those of reads and writes that lie within one window. A refused one changes nothing and
   returns nothing, and a write leaves its data alone.
   */
  lemma ServedExactly(core: Core, s: Side, command: Command, address: nat, data: seq<Byte>, resetRequest: bool)
    requires SideShaped(s)
    ensures var (t, status, returned) := Bus(core, s, command, address, |data|, data, resetRequest);
      && (status == AddressError <==>
            address + |data| > 0x2000 || (address < 0x1000 && address + |data| > 0x1000))
      && (status == Ok ==> !command.Ignore?)
      && (status == CommandError ==> command.Ignore?)
      && (status != Ok ==> t == s)
      && (status != Ok || command.Write? ==> returned == data)
  {
    hide Redrive, Triggers, Splice;
  }

  /**
   A control write that carries no bytes, which is no legal payload of TLM-2.0, changes no register and no signal; but
   it requests a bus write exactly when it points inside the trigger word, past its first byte, while the trigger is
   set.
   */
  lemma EmptyWrite(core: Core, s: Side, offset: nat, resetRequest: bool)
    requires Driven(core, s) && offset <= CONTROL_SIZE && !s.pending
    ensures var (t, status, _) := Control(core, s, Write, offset, 0, [], resetRequest);
      && status == Ok && t.bank == s.bank && t.signals == s.signals
      && (t.pending <==> SYSTEM_BUS_TRIGGER_OFFSET < offset < SYSTEM_BUS_TRIGGER_OFFSET + 4 && Trigger(s.bank) != 0)
  {
    assert Splice(s.bank, offset, []) == s.bank;
    RedriveExact(core, s.bank, offset, []);
  }
}
