/** The memory of a target, and the loosely-timed bus, as objects: byte loops in place and payloads changed in place. */
module LtModules {
  import opened AddressMap
  import opened LittleEndian
  import opened LtBus

  /** A generic payload; `annotated` is the delay argument that travels with it. */
  class Payload {
    const command: Command
    var address: nat
    const data: array<Byte>
    var status: Status
    var annotated: nat

    constructor (command: Command, address: nat, data: array<Byte>, delay: nat)
      ensures this.command == command && this.address == address && this.data == data && annotated == delay
    {
      this.command, this.address, this.data, status, annotated := command, address, data, Ok, delay;
    }
  }

  class TargetMemory {
    const bytes: array<Byte>
    const readDelay: nat
    const writeDelay: nat
    var previousWarning: bool

    constructor (size: nat, readDelay: nat, writeDelay: nat)
      ensures fresh(bytes) && bytes.Length == size && this.readDelay == readDelay && this.writeDelay == writeDelay
      ensures !previousWarning
      ensures forall i | 0 <= i < size :: bytes[i] == 0
    {
      bytes := new Byte[size](_ => 0);
      this.readDelay, this.writeDelay, previousWarning := readDelay, writeDelay, false;
    }

    method CheckAddress(p: Payload) returns (status: Status)
      ensures status == if AccessOk(bytes.Length, p.address, p.data.Length) then Ok else AddressError
    {
      if p.address >= bytes.Length {
        return AddressError;
      }
      if p.address + p.data.Length >= bytes.Length {
        return AddressError;
      }
      return Ok;
    }

    /** Moves the data into memory, byte by byte. */
    method MoveIn(p: Payload)
      requires p.data != bytes && p.address + p.data.Length <= bytes.Length
      modifies bytes
      ensures bytes[..] == Splice(old(bytes[..]), p.address, p.data[..])
    {
      var address, i := p.address, 0;
      while i < p.data.Length
        invariant i <= p.data.Length && address == p.address + i
        invariant forall k | 0 <= k < i :: bytes[p.address + k] == p.data[k]
        invariant forall k | 0 <= k < bytes.Length && !(p.address <= k < address) :: bytes[k] == old(bytes[k])
      {
        bytes[address] := p.data[i];
        address, i := address + 1, i + 1;
      }
      assert bytes[..] == Splice(old(bytes[..]), p.address, p.data[..]);
    }

    /** Moves memory into the data, byte by byte. */
    method MoveOut(p: Payload)
      requires p.data != bytes && p.address + p.data.Length <= bytes.Length
      modifies p.data
      ensures p.data[..] == bytes[..][p.address..p.address + p.data.Length]
    {
      var address, i := p.address, 0;
      while i < p.data.Length
        invariant i <= p.data.Length && address == p.address + i
        invariant forall k | 0 <= k < i :: p.data[k] == bytes[p.address + k]
      {
        p.data[i] := bytes[address];
        address, i := address + 1, i + 1;
      }
      assert p.data[..] == bytes[..][p.address..p.address + p.data.Length];
    }

    /**
     `memory::operation`; the delay grows only when the access is made, and the first command that is neither read nor
     write sets it to zero.
     */
    method Operation(p: Payload)
      requires p.data != bytes
      modifies this`previousWarning, bytes, p.data, p`status, p`annotated
      ensures (bytes[..], p.status, p.data[..]) == Operate(old(bytes[..]), p.command, p.address, old(p.data[..]))
      ensures previousWarning == (old(previousWarning) || p.command.Ignore?)
      ensures p.annotated ==
              match p.command
              case Read => old(p.annotated) + (if p.status.Ok? then readDelay else 0)
              case Write => old(p.annotated) + (if p.status.Ok? then writeDelay else 0)
              case Ignore => if old(previousWarning) then old(p.annotated) else 0
    {
      var status := CheckAddress(p);
      match p.command {
        case Write =>
          if status.Ok? {
            MoveIn(p);
            p.annotated := p.annotated + writeDelay;
          }
        case Read =>
          if status.Ok? {
            MoveOut(p);
            p.annotated := p.annotated + readDelay;
          }
        case Ignore =>
          if !previousWarning {
            p.annotated := 0;
            previousWarning := true;
          }
      }
      p.status := status;
    }
  }

  class SimpleBusLT {
    const targets: seq<TargetMemory>

    ghost predicate Valid() {
      forall i, j | 0 <= i < j < |targets| :: targets[i] != targets[j] && targets[i].bytes != targets[j].bytes
    }

    ghost function Buffers(): set<object> {
      set i | 0 <= i < |targets| :: targets[i].bytes
    }

    ghost function Abs(): seq<seq<Byte>> reads Buffers() {
      seq(|targets|, i requires 0 <= i < |targets| reads Buffers() => targets[i].bytes[..])
    }

    constructor (targets: seq<TargetMemory>)
      requires forall i, j | 0 <= i < j < |targets| :: targets[i] != targets[j] && targets[i].bytes != targets[j].bytes
      ensures Valid() && this.targets == targets
    {
      this.targets := targets;
    }

    /** `initiatorBTransport`, for an address that decodes to a bound port. */
    method InitiatorBTransport(p: Payload)
      requires Valid() && p.data !in Buffers() && Decode(p.address) < |targets|
      modifies targets[Decode(p.address)], Buffers(), p, p.data
      ensures (Abs(), p.status, p.data[..]) == Transport(old(Abs()), Access(p.command, old(p.address), old(p.data[..])))
      ensures p.address == Mask(old(p.address))
      ensures var target := targets[Decode(old(p.address))];
        && target.previousWarning == (old(targets[Decode(p.address)].previousWarning) || p.command.Ignore?)
        && p.annotated ==
             match p.command
             case Read => old(p.annotated) + (if p.status.Ok? then target.readDelay else 0)
             case Write => old(p.annotated) + (if p.status.Ok? then target.writeDelay else 0)
             case Ignore => if old(targets[Decode(p.address)].previousWarning) then old(p.annotated) else 0
    {
      ghost var before := Abs();
      var portId := Decode(p.address);
      p.address := Mask(p.address);
      assert targets[portId].bytes in Buffers();
      targets[portId].Operation(p);
      assert Abs() == before[portId := targets[portId].bytes[..]];
    }

    /**
     The address part of `getDMIPointer`: the target grants the local range; the initiator sees the translated one.
     */
    method GetDmiRange(p: Payload, start: nat, end: nat) returns (globalStart: nat, globalEnd: nat)
      requires Decode(p.address) < |targets|
      requires start <= Mask(p.address) <= end
      modifies p`address
      ensures p.address == Mask(old(p.address))
      ensures globalStart <= old(p.address) % 0x1_0000_0000 <= globalEnd
      ensures forall b | 0 <= b < 0x1_0000_0000 ::
                globalStart <= b <= globalEnd <==> Decode(b) == Decode(old(p.address)) && start <= Mask(b) <= end
    {
      var address := p.address;
      var portId := Decode(address);
      Parts(address);
      p.address := Mask(address);
      RangeContains(address, start, end);
      ghost var r := LimitRange(portId, start, end);
      forall b | 0 <= b < SPACE
        ensures r.low <= b <= r.high <==> Decode(b) == portId && start <= Mask(b) <= end
      {
        RangeExact(portId, start, end, b);
      }
      globalStart, globalEnd := start + Offset(portId), end;
      if end > PORT_SPAN - 1 {
        globalEnd := Offset(portId) + (PORT_SPAN - 1);
      } else {
        globalEnd := globalEnd + Offset(portId);
      }
    }
  }
}
