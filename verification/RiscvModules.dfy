/** `riscv_signals` as an object: its register bank, its trigger hand-off and its writer thread. */
module RiscvModules {
  import opened LittleEndian
  import opened RiscvWriter
  import H = HmpSignals
  import M = HmpModules

  class RiscvSignals {
    const controlRegisters: array<Byte>
    var systemBusWritePending: bool
    var eventNotified: bool
    var writer: Place
    ghost var log: seq<Mark>

    ghost predicate Valid() { controlRegisters.Length == H.CONTROL_SIZE }

    ghost function Abs(): State reads this {
      State(writer, systemBusWritePending, eventNotified, log)
    }

    constructor ()
      ensures Valid() && Abs() == INITIAL && fresh(controlRegisters)
      ensures controlRegisters[..] == H.InitialSide(H.RiscV).bank
    {
      var bank := H.InitialSide(H.RiscV).bank;
      controlRegisters := new Byte[H.CONTROL_SIZE](i requires 0 <= i < H.CONTROL_SIZE => bank[i]);
      systemBusWritePending, eventNotified, writer, log := false, false, Top, [];
      new;
      assert controlRegisters[..] == bank;
    }

    /** `handle_control`: a write reaches the bank and, if it leaves a nonzero trigger it overlaps, the writer. */
    method HandleControl(p: M.Payload)
      requires Valid() && p.data != controlRegisters
      modifies this, controlRegisters, p`status, p.data
      ensures p.address + p.data.Length > H.CONTROL_SIZE || !p.command.Read? ==> p.data[..] == old(p.data[..])
      ensures p.address + p.data.Length > H.CONTROL_SIZE ==>
                p.status == H.AddressError && Abs() == old(Abs()) && controlRegisters[..] == old(controlRegisters[..])
      ensures p.address + p.data.Length <= H.CONTROL_SIZE && p.command.Write? ==>
        && p.status == H.Ok
        && controlRegisters[..] == Splice(old(controlRegisters[..]), p.address, old(p.data[..]))
        && Abs() == (if H.Triggers(controlRegisters[..], p.address, p.data.Length)
                     then DoTrigger(old(Abs())) else old(Abs()))
      ensures p.address + p.data.Length <= H.CONTROL_SIZE && !p.command.Write? ==>
        && Abs() == old(Abs()) && controlRegisters[..] == old(controlRegisters[..])
        && (p.command.Read? ==>
              p.status == H.Ok && p.data[..] == controlRegisters[..][p.address..p.address + p.data.Length])
        && (p.command.Ignore? ==> p.status == H.CommandError)
    {
      var offset, length := p.address, p.data.Length;
      if offset + length > controlRegisters.Length {
        p.status := H.AddressError;
        return;
      }
      match p.command {
        case Read =>
          M.MemCopy(p.data, 0, controlRegisters, offset, length);
          p.status := H.Ok;
        case Write =>
          M.MemCopy(controlRegisters, offset, p.data, 0, length);
          ApplyTrigger(offset, length);
          p.status := H.Ok;
        case Ignore => p.status := H.CommandError;
      }
    }

    /** The trigger part of `apply_control_write`. */
    method ApplyTrigger(offset: nat, length: nat)
      requires Valid()
      modifies this
      ensures Abs() == if H.Triggers(controlRegisters[..], offset, length) then DoTrigger(old(Abs())) else old(Abs())
    {
      if H.Overlaps(offset, length, H.SYSTEM_BUS_TRIGGER_OFFSET, 4) {
        ghost var bank := controlRegisters[..];
        var word := controlRegisters[H.SYSTEM_BUS_TRIGGER_OFFSET..H.SYSTEM_BUS_TRIGGER_OFFSET + 4];
        assert word == bank[H.SYSTEM_BUS_TRIGGER_OFFSET..H.SYSTEM_BUS_TRIGGER_OFFSET + 4];
        if Value(word) != 0 {
          systemBusWritePending := true;
          eventNotified := true;
          log := log + [Triggered];
        }
      }
    }

    /** `system_bus_writer` runs from where it is to its next wait or to its bus call. */
    method SystemBusWriterRuns()
      requires Runnable(writer)
      modifies this
      ensures Abs() == Next(old(Abs()), Proceed) && !Runnable(writer)
    {
      if writer.Resumed? {
        log := log + [Written];
        writer := InBus;
      } else {
        if writer.Top? && !systemBusWritePending {
          writer := Waiting;
          return;
        }
        systemBusWritePending := false;
        writer := Pausing;
      }
    }
  }
}
