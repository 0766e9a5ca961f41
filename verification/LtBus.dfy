/**
 The loosely-timed bus and the memories behind it. All targets together must look like one flat memory, and the
 address range a target grants for direct access must be translated to exactly the addresses that lead to it.
 */
module LtBus {
  import opened AddressMap
  import opened LittleEndian

  datatype Command = Read | Write | Ignore
  datatype Status = Ok | AddressError | Unbound   // Unbound: the bus's assertion on the port fails

  function Offset(port: nat): nat { port * PORT_SPAN }

  /** The port and the masked address are the quotient and the rest of the address by 2^28, modulo 2^32. */
  lemma Parts(address: nat)
    ensures Decode(address) == (address % 0x1_0000_0000) / 0x1000_0000 < 16
    ensures Mask(address) == address % 0x1000_0000
    ensures Offset(Decode(address)) + Mask(address) == address % 0x1_0000_0000
  {
    assert SPACE == 16 * PORT_SPAN;
    assert address == SPACE * (address / SPACE) + address % SPACE;
    var low := address % SPACE;
    assert low == PORT_SPAN * (low / PORT_SPAN) + low % PORT_SPAN;
    assert address == PORT_SPAN * (16 * (address / SPACE) + low / PORT_SPAN) + low % PORT_SPAN;
    Unique(address, 16 * (address / SPACE) + low / PORT_SPAN, low % PORT_SPAN);
  }

  lemma Unique(a: nat, q: nat, r: nat)
    requires r < PORT_SPAN && a == PORT_SPAN * q + r
    ensures a % PORT_SPAN == r && a / PORT_SPAN == q
  {
  }

  // ---------------------------------------------------------------- the memory of a target

  /** `memory::operation`: the memory, the status and the data afterwards. */
  function Operate(memory: seq<Byte>, command: Command, address: nat, data: seq<Byte>):
      (r: (seq<Byte>, Status, seq<Byte>))
    ensures |r.0| == |memory|
  {
    if !AccessOk(|memory|, address, |data|) then (memory, AddressError, data)
    else
      match command
      case Write => (Splice(memory, address, data), Ok, data)
      case Read => (memory, Ok, memory[address..address + |data|])
      case Ignore => (memory, Ok, data)
  }

  // ---------------------------------------------------------------- runs through the bus

  datatype Access = Access(command: Command, address: nat, data: seq<Byte>)

  /** `initiatorBTransport`: the targets, the status and the data afterwards. */
  function Transport(ts: seq<seq<Byte>>, a: Access): (r: (seq<seq<Byte>>, Status, seq<Byte>))
    ensures |r.0| == |ts|
  {
    var port := Decode(a.address);
    if port >= |ts| then (ts, Unbound, a.data)
    else
      var (m, status, data) := Operate(ts[port], a.command, Mask(a.address), a.data);
      (ts[port := m], status, data)
  }

  /** The targets after a run. */
  function After(ts: seq<seq<Byte>>, run: seq<Access>): (r: seq<seq<Byte>>)
    ensures |r| == |ts|
  {
    if run == [] then ts else Transport(After(ts, run[..|run| - 1]), run[|run| - 1]).0
  }

  /** The access names a bound port and ends before the last byte of the memory behind it. */
  predicate Fits(ts: seq<seq<Byte>>, a: Access) {
    var port := (a.address % 0x1_0000_0000) / 0x1000_0000;
    port < |ts| && a.address % 0x1000_0000 + |a.data| < |ts[port]|
  }

  /**
   The reference, from the accesses alone: one flat memory. The byte at a flat address is the one that the last write
   that fits and covers it put there, and zero if there is none.
   */
  function LastWritten(ts: seq<seq<Byte>>, run: seq<Access>, flat: nat): Byte {
    if run == [] then 0
    else
      var a := run[|run| - 1];
      var start := a.address % 0x1_0000_0000;
      if a.command.Write? && Fits(ts, a) && start <= flat < start + |a.data| then a.data[flat - start]
      else LastWritten(ts, run[..|run| - 1], flat)
  }

  /** Zeroed memories that fit into their windows. */
  predicate Fresh(ts: seq<seq<Byte>>) {
    forall k | 0 <= k < |ts| :: |ts[k]| <= 0x1000_0000 && forall o | 0 <= o < |ts[k]| :: ts[k][o] == 0
  }

  lemma {:induction false} SizesStay(ts: seq<seq<Byte>>, run: seq<Access>, k: nat)
    requires k < |ts|
    ensures |After(ts, run)[k]| == |ts[k]|
  {
    if run != [] { SizesStay(ts, run[..|run| - 1], k); }
  }

  /** Two places with different parts have different flat addresses. */
  lemma FlatApart(k: nat, o: nat, j: nat, p: nat)
    requires o < PORT_SPAN && p < PORT_SPAN && k != j
    ensures Offset(k) + o != Offset(j) + p
  {
  }

  /** One byte of one target after one access. */
  lemma TransportByte(ts: seq<seq<Byte>>, a: Access, k: nat, o: nat)
    requires k < |ts| && o < |ts[k]|
    ensures var start := Mask(a.address);
      var after := Transport(ts, a).0;
      && |after[k]| == |ts[k]|
      && after[k][o] == if a.command.Write? && Fits(ts, a) && Decode(a.address) == k && start <= o < start + |a.data|
                        then a.data[o - start] else ts[k][o]
  {
    Parts(a.address);
  }

  /** One byte of one target after one more access. */
  lemma StepByte(ts: seq<seq<Byte>>, run: seq<Access>, k: nat, o: nat)
    requires Fresh(ts) && run != [] && k < |ts| && o < |ts[k]|
    requires |After(ts, run[..|run| - 1])[k]| == |ts[k]|
    requires After(ts, run[..|run| - 1])[k][o] == LastWritten(ts, run[..|run| - 1], Offset(k) + o)
    ensures |After(ts, run)[k]| == |ts[k]| && After(ts, run)[k][o] == LastWritten(ts, run, Offset(k) + o)
  {
    hide Transport, Splice, Operate;
    var a := run[|run| - 1];
    var before := After(ts, run[..|run| - 1]);
    Parts(a.address);
    if Decode(a.address) < |ts| { SizesStay(ts, run[..|run| - 1], Decode(a.address)); }
    assert Fits(before, a) == Fits(ts, a);
    TransportByte(before, a, k, o);
    if Fits(ts, a) { CoveredAt(Decode(a.address), Mask(a.address), |a.data|, k, o); }
  }

  /** Which flat addresses an access covers that stays in its port's window. */
  lemma CoveredAt(port: nat, start: nat, length: nat, k: nat, o: nat)
    requires start + length <= PORT_SPAN && o < PORT_SPAN
    ensures Offset(port) + start <= Offset(k) + o < Offset(port) + start + length <==>
              port == k && start <= o < start + length
  {
    if port != k && Offset(port) + start <= Offset(k) + o < Offset(port) + start + length {
      FlatApart(k, o, port, Offset(k) + o - Offset(port));
    }
  }

  /** The targets are the flat memory, byte by byte. */
  lemma {:induction false} Flat(ts: seq<seq<Byte>>, run: seq<Access>, k: nat, o: nat)
    requires Fresh(ts) && k < |ts| && o < |ts[k]|
    ensures |After(ts, run)[k]| == |ts[k]| && After(ts, run)[k][o] == LastWritten(ts, run, Offset(k) + o)
  {
    if run != [] {
      Flat(ts, run[..|run| - 1], k, o);
      StepByte(ts, run, k, o);
    }
  }

  /**
   Over every run that mixes ports and offsets, a successful read returns at each place the byte last written
   successfully at the same address modulo 2^32, or zero.
   */
  lemma ReadsLastWritten(ts: seq<seq<Byte>>, run: seq<Access>, a: Access)
    requires Fresh(ts) && a.command.Read? && Transport(After(ts, run), a).1.Ok?
    ensures var data := Transport(After(ts, run), a).2;
      |data| == |a.data| && forall i | 0 <= i < |data| :: data[i] == LastWritten(ts, run, a.address % 0x1_0000_0000 + i)
  {
    var k := Decode(a.address);
    Parts(a.address);
    SizesStay(ts, run, k);
    var data := Transport(After(ts, run), a).2;
    forall i | 0 <= i < |data| ensures data[i] == LastWritten(ts, run, a.address % 0x1_0000_0000 + i) {
      Flat(ts, run, k, Mask(a.address) + i);
    }
  }

  /**
   An access fails exactly when its port is unbound or its masked end reaches the memory size; then nothing changes.
   Data is changed by a successful read only.
   */
  lemma FailsExactly(ts: seq<seq<Byte>>, run: seq<Access>, a: Access)
    ensures var (after, status, data) := Transport(After(ts, run), a);
      && (status.Ok? <==> Fits(ts, a))
      && (!status.Ok? ==> after == After(ts, run))
      && (!status.Ok? || !a.command.Read? ==> data == a.data)
  {
    var k := Decode(a.address);
    Parts(a.address);
    if k < |ts| { SizesStay(ts, run, k); }
  }

  /** The bus leaves the masked address in the payload: sent again as it is, it goes to port 0. */
  lemma ResentGoesToPortZero(address: nat)
    ensures Decode(Mask(address)) == 0 && Mask(Mask(address)) == Mask(address)
  {
  }

  // ---------------------------------------------------------------- direct memory ranges

  datatype Range = NoRange | Range(low: nat, high: nat)

  /** `limitRange`. */
  function LimitRange(port: nat, low: nat, high: nat): Range {
    if low > PORT_SPAN - 1 then NoRange
    else Range(low + Offset(port), Offset(port) + if high > PORT_SPAN - 1 then PORT_SPAN - 1 else high)
  }

  /**
   The translated range is exactly the set of addresses below 2^32 that decode to the port and, masked, lie in the
   target's own range; so each leads back into it.
   */
  lemma RangeExact(port: nat, low: nat, high: nat, b: nat)
    requires port < 16 && b < 0x1_0000_0000
    ensures var r := LimitRange(port, low, high);
      (r.Range? && r.low <= b <= r.high) <==> (b / 0x1000_0000 == port && low <= b % 0x1000_0000 <= high)
  {
    Parts(b);
    if Decode(b) != port {
      assert b < Offset(port) || b >= Offset(port) + PORT_SPAN;
    }
  }

  /**
   A range that contains the masked address is translated to one that contains the address, inside the port's window.
   */
  lemma RangeContains(address: nat, low: nat, high: nat)
    requires low <= address % 0x1000_0000 <= high
    ensures var port := (address % 0x1_0000_0000) / 0x1000_0000;
      var r := LimitRange(port, low, high);
      && r.Range? && r.low <= address % 0x1_0000_0000 <= r.high
      && 0x1000_0000 * port <= r.low && r.high < 0x1000_0000 * (port + 1) <= 0x1_0000_0000
  {
    Parts(address);
  }
}
