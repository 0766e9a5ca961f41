/**
 The DMA controller as a thread that shares its registers with the bus: register writes, the bus-free pin and
 the thread's bus accesses interleave in any way.
 */
module DmaController {
  import opened LittleEndian
  import opened DmaCopy

  /** Where the thread `dmac_loop` is. */
  datatype Place =
    | Idle                                                  // waits for the start event
    | Started                                               // the start event fired
    | Asking                                                // waits for a rising edge of bus_free
    | Granted                                               // the edge came
    | Looping(src: nat, dst: nat, i: nat)                   // about to test the loop condition
    | Reading(src: nat, dst: nat, i: nat)                   // in the read call
    | Writing(src: nat, dst: nat, i: nat, data: Byte)       // in the write call
    | Dead                                                  // a bus access failed and the thread returned

  /** What can be seen of the controller. */
  datatype Mark =
    | Start(accepted: bool)         // start command: the thread took it, or was busy
    | Request                       // bus_request raised
    | Free                          // rising edge of bus_free while the thread waited for it
    | Begin(src: nat, dst: nat)     // the copy begins from these addresses
    | ReadAt(address: nat)
    | WroteAt(address: nat)
    | Drop                          // bus_request lowered
    | Failed

  datatype State = State(
    addrSrc: nat, addrDst: nat, dataLen: nat,
    place: Place, busRequest: bool, busFree: bool,
    memory: seq<Byte>,              // behind the bus
    before: seq<Byte>,              // history: the memory when the current copy began
    log: seq<Mark>)

  datatype Step =
    | WriteRegister(address: nat, value: nat)
    | SetBusFree(level: bool)
    | Proceed
    | BusReturns

  /** The registers of the controller; other addresses and commands are assertion failures of the code. */
  predicate Enabled(s: State, step: Step) {
    match step
    case WriteRegister(a, v) => v < 0x1_0000_0000 && (a == 0x4 || a == 0x8 || a == 0xC || (a == 0x10 && v % 16 == 1))
    case SetBusFree(_) => true
    case Proceed => s.place.Started? || s.place.Granted? || s.place.Looping?
    case BusReturns => s.place.Reading? || s.place.Writing?
  }

  /** `receive_b_transport`: a start command reaches the thread only while it waits for it. */
  function DoWriteRegister(s: State, a: nat, v: nat): State {
    if a == 0x4 then s.(addrSrc := v)
    else if a == 0x8 then s.(addrDst := v)
    else if a == 0xC then s.(dataLen := v)
    else s.(place := if s.place.Idle? then Started else s.place, log := s.log + [Start(s.place.Idle?)])
  }

  function DoSetBusFree(s: State, level: bool): State {
    if level && !s.busFree && s.place.Asking? then s.(busFree := level, place := Granted, log := s.log + [Free])
    else s.(busFree := level)
  }

  /** The thread runs to its next wait or bus call. */
  function DoProceed(s: State): State {
    match s.place
    case Started => s.(busRequest := true, place := Asking, log := s.log + [Request])
    case Granted =>
      s.(place := Looping(s.addrSrc, s.addrDst, 0), before := s.memory, log := s.log + [Begin(s.addrSrc, s.addrDst)])
    case Looping(src, dst, i) =>
      if i < s.dataLen then s.(place := Reading(src, dst, i))
      else s.(busRequest := false, place := Idle, log := s.log + [Drop])
    case _ => s
  }

  /** A bus call returns; an access outside the memory fails. */
  function DoBusReturns(s: State): State {
    match s.place
    case Reading(src, dst, i) =>
      if Address(src, i) >= |s.memory| then s.(place := Dead, log := s.log + [Failed])
      else s.(place := Writing(src, dst, i, s.memory[Address(src, i)]), log := s.log + [ReadAt(Address(src, i))])
    case Writing(src, dst, i, data) =>
      if Address(dst, i) >= |s.memory| then s.(place := Dead, log := s.log + [Failed])
      else s.(place := Looping(src, dst, i + 1), memory := s.memory[Address(dst, i) := data],
              log := s.log + [WroteAt(Address(dst, i))])
    case _ => s
  }

  function Next(s: State, step: Step): State {
    match step
    case WriteRegister(a, v) => DoWriteRegister(s, a, v)
    case SetBusFree(level) => DoSetBusFree(s, level)
    case Proceed => DoProceed(s)
    case BusReturns => DoBusReturns(s)
  }

  predicate Initial(s: State) {
    s.place == Idle && !s.busRequest && s.log == []
  }

  ghost predicate Runs(s: State, steps: seq<Step>, s': State)
    decreases |steps|
  {
    if steps == [] then s' == s
    else Enabled(s, steps[0]) && Runs(Next(s, steps[0]), steps[1..], s')
  }

  ghost predicate Reachable(s: State) {
    exists s0, steps :: Initial(s0) && Runs(s0, steps, s)
  }

  // ---------------------------------------------------------------- the discipline, as an automaton over the marks

  datatype Stage =
    | Quiet
    | Called                                                 // start command taken
    | Requested                                              // bus_request is high
    | Freed                                                  // a rising edge of bus_free came since
    | Copying(src: nat, dst: nat, done: nat, half: bool)     // `done` bytes copied, and the next one read or not
    | Broken                                                 // an access failed
    | Illegal

  /**
   Accepted: starts are taken exactly when nothing is going on; every access comes after a rising edge of bus_free
   that came after the request of the same transfer, and goes to the next address from where the transfer began.
   */
  function Move(g: Stage, m: Mark): Stage {
    match m
    case Start(accepted) =>
      if accepted then (if g.Quiet? then Called else Illegal) else (if g.Quiet? then Illegal else g)
    case Request => if g.Called? then Requested else Illegal
    case Free => if g.Requested? then Freed else Illegal
    case Begin(src, dst) => if g.Freed? then Copying(src, dst, 0, false) else Illegal
    case ReadAt(a) => if g.Copying? && !g.half && a == Address(g.src, g.done) then g.(half := true) else Illegal
    case WroteAt(a) =>
      if g.Copying? && g.half && a == Address(g.dst, g.done) then g.(half := false, done := g.done + 1) else Illegal
    case Drop => if g.Copying? && !g.half then Quiet else Illegal
    case Failed => if g.Copying? then Broken else Illegal
  }

  function Monitor(log: seq<Mark>): Stage {
    if log == [] then Quiet else Move(Monitor(log[..|log| - 1]), log[|log| - 1])
  }

  lemma MonitorAppend(log: seq<Mark>, m: Mark)
    ensures Monitor(log + [m]) == Move(Monitor(log), m)
  {
    assert (log + [m])[..|log|] == log;
  }

  /** The stage, judged from the thread alone. */
  function Track(p: Place): Stage {
    match p
    case Idle => Quiet
    case Started => Called
    case Asking => Requested
    case Granted => Freed
    case Looping(src, dst, i) => Copying(src, dst, i, false)
    case Reading(src, dst, i) => Copying(src, dst, i, false)
    case Writing(src, dst, i, _) => Copying(src, dst, i, true)
    case Dead => Broken
  }

  predicate CopyingAt(s: State) { s.place.Looping? || s.place.Reading? || s.place.Writing? }

  /** While a copy runs, memory is what the plain copy loop makes of the memory at its beginning. */
  predicate CopyOk(s: State) {
    CopyingAt(s) ==>
      && |s.before| == |s.memory|
      && (forall j | 0 <= j < s.place.i :: Reaches(|s.before|, s.place.src, s.place.dst, j))
      && s.memory == After(s.before, s.place.src, s.place.dst, s.place.i)
      && (s.place.Writing? ==> Address(s.place.src, s.place.i) < |s.memory|
                               && s.place.data == s.memory[Address(s.place.src, s.place.i)])
  }

  predicate Inv(s: State) {
    && Monitor(s.log) == Track(s.place)
    && s.busRequest == !(s.place.Idle? || s.place.Started?)
    && CopyOk(s)
  }

  lemma ProceedKeeps(s: State)
    requires Inv(s) && Enabled(s, Proceed)
    ensures Inv(DoProceed(s))
  {
    hide Monitor;
    match s.place
    case Started => MonitorAppend(s.log, Request);
    case Granted => MonitorAppend(s.log, Begin(s.addrSrc, s.addrDst));
    case Looping(_, _, _) => MonitorAppend(s.log, Drop);
  }

  lemma ReadReturnsKeeps(s: State)
    requires Inv(s) && s.place.Reading?
    ensures Inv(DoBusReturns(s))
  {
    hide Monitor, After;
    MonitorAppend(s.log, Failed);
    MonitorAppend(s.log, ReadAt(Address(s.place.src, s.place.i)));
  }

  lemma WriteReturnsKeeps(s: State)
    requires Inv(s) && s.place.Writing?
    ensures Inv(DoBusReturns(s))
  {
    hide Enabled, Monitor;
    var src, dst, i := s.place.src, s.place.dst, s.place.i;
    MonitorAppend(s.log, Failed);
    MonitorAppend(s.log, WroteAt(Address(dst, i)));
    assert Monitor(DoBusReturns(s).log) == Track(DoBusReturns(s).place);
    if Address(dst, i) < |s.memory| {
      assert Reaches(|s.before|, src, dst, i);
      assert CopyOk(DoBusReturns(s));
    }
  }

  /** A step outside the thread leaves the copy alone. */
  lemma OutsideKeeps(s: State, step: Step)
    requires Inv(s) && Enabled(s, step) && (step.WriteRegister? || step.SetBusFree?)
    ensures Inv(Next(s, step))
  {
    hide Monitor, After;
    MonitorAppend(s.log, Start(s.place.Idle?));
    MonitorAppend(s.log, Free);
  }

  lemma StepKeeps(s: State, step: Step)
    requires Inv(s) && Enabled(s, step)
    ensures Inv(Next(s, step))
  {
    hide Inv, DoProceed, DoBusReturns, DoWriteRegister, DoSetBusFree;
    match step
    case WriteRegister(_, _) => OutsideKeeps(s, step);
    case SetBusFree(_) => OutsideKeeps(s, step);
    case Proceed => ProceedKeeps(s);
    case BusReturns => if s.place.Reading? { ReadReturnsKeeps(s); } else { WriteReturnsKeeps(s); }
  }

  lemma {:induction false} RunKeeps(s: State, steps: seq<Step>, s': State)
    requires Inv(s) && Runs(s, steps, s')
    ensures Inv(s')
    decreases |steps|
  {
    if steps != [] {
      StepKeeps(s, steps[0]);
      RunKeeps(Next(s, steps[0]), steps[1..], s');
    }
  }

  lemma ReachableInv(s: State)
    requires Reachable(s)
    ensures Inv(s)
  {
    var s0, steps :| Initial(s0) && Runs(s0, steps, s);
    RunKeeps(s0, steps, s);
  }

  // ---------------------------------------------------------------- main results

  /** The pin bus_request, from the marks alone. */
  predicate Requesting(log: seq<Mark>) {
    log != [] &&
    match log[|log| - 1]
    case Request => true
    case Drop => false
    case _ => Requesting(log[..|log| - 1])
  }

  lemma {:induction false} RequestingStage(log: seq<Mark>)
    requires Monitor(log) != Illegal
    ensures Requesting(log) == !(Monitor(log).Quiet? || Monitor(log).Called?)
  {
    if log != [] { RequestingStage(log[..|log| - 1]); }
  }

  /**
   Over all interleavings the marks keep the discipline, and bus_request is high exactly from the request of a transfer
   to its end; so every access comes while it is high.
   */
  lemma HandshakeKept(s: State)
    requires Reachable(s)
    ensures Monitor(s.log) != Illegal
    ensures s.busRequest == Requesting(s.log)
  {
    ReachableInv(s);
    RequestingStage(s.log);
  }

  function Begun(log: seq<Mark>): nat {
    if log == [] then 0 else Begun(log[..|log| - 1]) + if log[|log| - 1].Begin? then 1 else 0
  }

  function Taken(log: seq<Mark>): nat {
    if log == [] then 0 else Taken(log[..|log| - 1]) + if log[|log| - 1] == Start(true) then 1 else 0
  }

  lemma {:induction false} BegunTaken(log: seq<Mark>)
    requires Monitor(log) != Illegal
    ensures Taken(log) == Begun(log) +
              if Monitor(log).Called? || Monitor(log).Requested? || Monitor(log).Freed? then 1 else 0
  {
    if log != [] { BegunTaken(log[..|log| - 1]); }
  }

  /** Each start command that finds the thread idle begins one transfer, and no other command does. */
  lemma OneTransferPerStart(s: State)
    requires Reachable(s)
    ensures Taken(s.log) == Begun(s.log) + if s.place.Started? || s.place.Asking? || s.place.Granted? then 1 else 0
  {
    ReachableInv(s);
    BegunTaken(s.log);
  }

  /**
   A transfer ends only when the loop index has reached the length register as it stands then; what it leaves is the
   plain copy of that many bytes between the addresses it began with, whatever was written to the registers meanwhile.
   */
  lemma TransferResult(s: State)
    requires Reachable(s) && s.place.Looping? && Next(s, Proceed).place.Idle?
    ensures s.place.i >= s.dataLen
    ensures |s.before| == |s.memory|
    ensures forall j | 0 <= j < s.place.i :: Reaches(|s.before|, s.place.src, s.place.dst, j)
    ensures Next(s, Proceed).memory == After(s.before, s.place.src, s.place.dst, s.place.i)
  {
    ReachableInv(s);
  }

  // ---------------------------------------------------------------- a transfer of fixed length

  /** A run that stays within one copy and writes to other registers than the length. */
  ghost predicate CopyRuns(s: State, steps: seq<Step>, t: State)
    decreases |steps|
  {
    && CopyingAt(s)
    && if steps == [] then t == s
       else Enabled(s, steps[0]) && (steps[0].WriteRegister? ==> steps[0].address != 0xC)
            && CopyRuns(Next(s, steps[0]), steps[1..], t)
  }

  lemma {:induction false} CopyIsRun(s: State, steps: seq<Step>, t: State)
    requires CopyRuns(s, steps, t)
    ensures Runs(s, steps, t)
    decreases |steps|
  {
    if steps != [] { CopyIsRun(Next(s, steps[0]), steps[1..], t); }
  }

  /** The thread has not run past the length register. */
  predicate Within(s: State)
    requires CopyingAt(s)
  {
    s.place.i <= s.dataLen && (s.place.Reading? || s.place.Writing? ==> s.place.i < s.dataLen)
  }

  /** Within one copy the addresses, the memory at the beginning and the length stand. */
  lemma {:induction false} CopyStands(s: State, steps: seq<Step>, t: State)
    requires CopyRuns(s, steps, t) && Within(s)
    ensures CopyingAt(t) && Within(t) && t.dataLen == s.dataLen
    ensures t.place.src == s.place.src && t.place.dst == s.place.dst && t.before == s.before
    decreases |steps|
  {
    if steps != [] { CopyStands(Next(s, steps[0]), steps[1..], t); }
  }

  /** The thread's own steps in a run. */
  function OwnSteps(steps: seq<Step>): nat {
    if steps == [] then 0 else (if steps[0].Proceed? || steps[0].BusReturns? then 1 else 0) + OwnSteps(steps[1..])
  }

  /** Own steps of the thread until it tests the loop condition for the last time. */
  function Left(s: State): int
    requires CopyingAt(s)
  {
    3 * (s.dataLen - s.place.i) - match s.place case Reading(_, _, _) => 1 case Writing(_, _, _, _) => 2 case _ => 0
  }

  lemma StepAdvances(s: State, step: Step)
    requires CopyingAt(s) && Within(s) && Enabled(s, step) && (step.WriteRegister? ==> step.address != 0xC)
    ensures var t := Next(s, step);
      CopyingAt(t) ==> Within(t) && Left(t) == Left(s) - OwnSteps([step])
  {
  }

  lemma {:induction false} CopyAdvances(s: State, steps: seq<Step>, t: State)
    requires CopyRuns(s, steps, t) && Within(s)
    ensures CopyingAt(t) && Left(t) == Left(s) - OwnSteps(steps) && Left(t) >= 0
    decreases |steps|
  {
    hide Next, Enabled;
    if steps != [] {
      StepAdvances(s, steps[0]);
      CopyAdvances(Next(s, steps[0]), steps[1..], t);
    }
  }

  /**
   A granted transfer ends: within it the thread can always go on, whatever else is written it makes at most three steps
   a byte, and after exactly that many it is about to release the bus.
   */
  lemma TransferEnds(s: State, steps: seq<Step>, t: State)
    requires s.place.Granted? && CopyRuns(Next(s, Proceed), steps, t)
    ensures Enabled(t, Proceed) || Enabled(t, BusReturns)
    ensures OwnSteps(steps) <= 3 * s.dataLen
    ensures OwnSteps(steps) == 3 * s.dataLen <==> t.place.Looping? && Next(t, Proceed).place.Idle?
  {
    CopyAdvances(Next(s, Proceed), steps, t);
    CopyStands(Next(s, Proceed), steps, t);
  }

  /**
   One transfer, from the step `s` in which the granted thread takes its addresses to the end after `t`, with the
   length register left alone: however writes to the addresses, further start commands and the pin interleave, each
   byte of the target range ends up as the byte that `Source` names of the memory at the beginning, both ranges taken
   from the address registers at the beginning, and all other memory is as it was.
   */
  lemma TransferCopies(s: State, steps: seq<Step>, t: State)
    requires Reachable(s) && s.place.Granted? && CopyRuns(Next(s, Proceed), steps, t)
    requires t.place.Looping? && Next(t, Proceed).place.Idle?
    requires s.addrSrc + s.dataLen <= |s.memory| && s.addrDst + s.dataLen <= |s.memory| <= 0x1_0000_0000
    ensures t.place.i == s.dataLen && |t.memory| == |s.memory|
    ensures forall a: nat | a < |s.memory| ::
              Copied(s.memory, Next(t, Proceed).memory, s.addrSrc, s.addrDst, s.dataLen, s.dataLen, a)
  {
    ReachableInv(s);
    var begun := Next(s, Proceed);
    StepKeeps(s, Proceed);
    CopyIsRun(begun, steps, t);
    RunKeeps(begun, steps, t);
    CopyStands(begun, steps, t);
    CopyResult(s.memory, s.addrSrc, s.addrDst, s.dataLen);
  }

  // ---------------------------------------------------------------- registers and pins, from the steps alone

  /** The value last written to the register at `address`. */
  function Written(steps: seq<Step>, address: nat, initial: nat): nat {
    if steps == [] then initial
    else
      var value := if steps[0].WriteRegister? && steps[0].address == address then steps[0].value else initial;
      Written(steps[1..], address, value)
  }

  /** The level last driven on bus_free. */
  function Driven(steps: seq<Step>, initial: bool): bool {
    if steps == [] then initial
    else Driven(steps[1..], if steps[0].SetBusFree? then steps[0].level else initial)
  }

  lemma StepRegisters(s: State, step: Step)
    requires Enabled(s, step)
    ensures var t := Next(s, step);
      && t.addrSrc == Written([step], 0x4, s.addrSrc) && t.addrDst == Written([step], 0x8, s.addrDst)
      && t.dataLen == Written([step], 0xC, s.dataLen) && t.busFree == Driven([step], s.busFree)
  {
  }

  /** Source, target and length are the values last written at 0x4, 0x8 and 0xC. */
  lemma {:induction false} RegistersAsWritten(s: State, steps: seq<Step>, t: State)
    requires Runs(s, steps, t)
    ensures t.addrSrc == Written(steps, 0x4, s.addrSrc)
    ensures t.addrDst == Written(steps, 0x8, s.addrDst)
    ensures t.dataLen == Written(steps, 0xC, s.dataLen)
    ensures t.busFree == Driven(steps, s.busFree)
    decreases |steps|
  {
    hide Next, Enabled;
    if steps != [] {
      StepRegisters(s, steps[0]);
      RegistersAsWritten(Next(s, steps[0]), steps[1..], t);
    }
  }

  /**
   A transfer does what was programmed: with the length left alone while it runs, it copies as many bytes as were last
   written at 0xC, from the address last written at 0x4 to the one last written at 0x8, all as they stood when the grant
   was taken up.
   */
  lemma TransferAsProgrammed(s0: State, before: seq<Step>, s: State, steps: seq<Step>, t: State)
    requires Initial(s0) && Runs(s0, before, s) && s.place.Granted? && CopyRuns(Next(s, Proceed), steps, t)
    requires t.place.Looping? && Next(t, Proceed).place.Idle?
    requires var src, dst := Written(before, 0x4, s0.addrSrc), Written(before, 0x8, s0.addrDst);
      var n := Written(before, 0xC, s0.dataLen);
      src + n <= |s.memory| && dst + n <= |s.memory| <= 0x1_0000_0000
    ensures var src, dst := Written(before, 0x4, s0.addrSrc), Written(before, 0x8, s0.addrDst);
      var n := Written(before, 0xC, s0.dataLen);
      && |Next(t, Proceed).memory| == |s.memory|
      && forall a: nat | a < |s.memory| :: Copied(s.memory, Next(t, Proceed).memory, src, dst, n, n, a)
  {
    RegistersAsWritten(s0, before, s);
    TransferCopies(s, steps, t);
  }

  function Commands(steps: seq<Step>): nat {
    if steps == [] then 0
    else (if steps[0].WriteRegister? && steps[0].address == 0x10 then 1 else 0) + Commands(steps[1..])
  }

  function Starts(log: seq<Mark>): nat {
    if log == [] then 0 else Starts(log[..|log| - 1]) + if log[|log| - 1].Start? then 1 else 0
  }

  lemma StartsAppend(log: seq<Mark>, m: Mark)
    ensures Starts(log + [m]) == Starts(log) + if m.Start? then 1 else 0
  {
    assert (log + [m])[..|log|] == log;
  }

  lemma StepStarts(s: State, step: Step)
    requires Enabled(s, step)
    ensures Starts(Next(s, step).log) == Starts(s.log) + Commands([step])
  {
    hide Starts;
    var t := Next(s, step);
    if t.log != s.log {
      assert t.log == s.log + [t.log[|t.log| - 1]];
      StartsAppend(s.log, t.log[|t.log| - 1]);
    }
  }

  /** Every write of a start command to 0x10 is a start, taken or not, and nothing else is. */
  lemma {:induction false} StartsAsCommanded(s: State, steps: seq<Step>, t: State)
    requires Runs(s, steps, t)
    ensures Starts(t.log) == Starts(s.log) + Commands(steps)
    decreases |steps|
  {
    hide Next, Enabled, Starts;
    if steps != [] {
      StepStarts(s, steps[0]);
      StartsAsCommanded(Next(s, steps[0]), steps[1..], t);
    }
  }

  /** The bus is granted exactly by a rising edge of bus_free while a request waits for one. */
  lemma GrantedExactly(s0: State, steps: seq<Step>, s: State, step: Step)
    requires Initial(s0) && Runs(s0, steps, s) && Enabled(s, step)
    ensures Next(s, step).log == s.log + [Free] <==>
              step == SetBusFree(true) && !Driven(steps, s0.busFree) && Monitor(s.log).Requested?
  {
    RegistersAsWritten(s0, steps, s);
    RunKeeps(s0, steps, s);
    assert |s.log + [Free]| == |s.log| + 1 && (s.log + [Free])[|s.log|] == Free;
  }

  /** No register write changes the addresses of a running copy, its progress or the memory. */
  lemma RegistersDoNotRedirect(s: State, a: nat, v: nat)
    requires Reachable(s) && Monitor(s.log).Copying? && Enabled(s, WriteRegister(a, v))
    ensures Monitor(Next(s, WriteRegister(a, v)).log) == Monitor(s.log)
    ensures Next(s, WriteRegister(a, v)).memory == s.memory
  {
    ReachableInv(s);
    StepKeeps(s, WriteRegister(a, v));
  }
}
