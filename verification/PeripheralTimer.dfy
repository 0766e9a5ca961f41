/**
 The free-running 32-bit timer of the peripheral, modelled without a clock: start commands with annotated delays, the
 rollover notification they schedule, and reads that round up to whole cycles. Time is real-valued here.
 */
module PeripheralTimer {
  import opened Common

  const CYCLES: int := 0x1_0000_0000

  /** `startTime` is meaningful once a start command came; `rollover` is the pending notification. */
  datatype Timer = Timer(startTime: Option<real>, rollover: Option<real>)

  function Min(a: real, b: real): real { if a <= b then a else b }

  /** An event keeps the earlier of a pending and a new notification. */
  function Notify(pending: Option<real>, at: real): Option<real> {
    if pending.Some? && pending.value <= at then pending else Some(at)
  }

  /** A start command at time `now`, annotated with a delay. */
  datatype Command = Command(now: real, delay: real)

  function Starts(c: Command): real { c.now + c.delay }

  /** `start_timer`. */
  function Start(t: Timer, c: Command, period: real): Timer {
    var start := if t.startTime.Some? then Min(t.startTime.value, Starts(c)) else Starts(c);
    var done := start + CYCLES as real * period;
    Timer(Some(start), if done >= c.now then Notify(t.rollover, done) else t.rollover)
  }

  function StartAll(commands: seq<Command>, period: real): Timer {
    if commands == [] then Timer(None, None)
    else Start(StartAll(commands[..|commands| - 1], period), commands[|commands| - 1], period)
  }

  function Earliest(commands: seq<Command>): real
    requires commands != []
  {
    if |commands| == 1 then Starts(commands[0])
    else Min(Earliest(commands[..|commands| - 1]), Starts(commands[|commands| - 1]))
  }

  lemma {:induction false} EarliestIsLeast(commands: seq<Command>)
    requires commands != []
    ensures forall i | 0 <= i < |commands| :: Earliest(commands) <= Starts(commands[i])
    ensures exists i :: 0 <= i < |commands| && Earliest(commands) == Starts(commands[i])
  {
    if |commands| == 1 {
      assert Earliest(commands) == Starts(commands[0]);
    } else {
      var before := commands[..|commands| - 1];
      EarliestIsLeast(before);
      var i :| 0 <= i < |before| && Earliest(before) == Starts(before[i]);
      var last := |commands| - 1;
      assert Earliest(commands) == Starts(commands[i]) || Earliest(commands) == Starts(commands[last]);
      forall j | 0 <= j < |commands| ensures Earliest(commands) <= Starts(commands[j]) {
        if j < last { assert commands[j] == before[j]; }
      }
    }
  }

  /** Each command comes before the rollover that the commands so far have scheduled. */
  predicate BeforeRollover(commands: seq<Command>, period: real) {
    commands == [] ||
    (var before, c := commands[..|commands| - 1], commands[|commands| - 1];
     && BeforeRollover(before, period) && c.delay >= 0.0
     && (before != [] ==> c.now <= Earliest(before) + CYCLES as real * period))
  }

  /**
   After any start commands before rollover, in any order of their annotated times, the timer counts from the earliest
   of them and the pending rollover is exactly 2^32 periods after it.
   */
  lemma {:induction false} RolloverAtEarliest(commands: seq<Command>, period: real)
    requires commands != [] && period > 0.0 && BeforeRollover(commands, period)
    ensures StartAll(commands, period) ==
            Timer(Some(Earliest(commands)), Some(Earliest(commands) + 4294967296.0 * period))
  {
    var before := commands[..|commands| - 1];
    if before != [] {
      RolloverAtEarliest(before, period);
    }
    Positive(CYCLES as real, period);
  }

  // ---------------------------------------------------------------- reading

  function Ceiling(x: real): int { -((-x).Floor) }

  /** The time from `cycles` to the end of the cycle `timer`. */
  function Left(timer: real, cycles: real, period: real): real { (timer - cycles) * period }

  /** `update_timer` once its delay is consumed: the register and the delay that is left. */
  function Update(start: real, now: real, period: real): (r: (int, real))
    requires period > 0.0
  {
    var cycles := (now - start) / period;
    var timer := Ceiling(cycles);
    (timer, Left(timer as real, cycles, period))
  }

  /** Multiplying by a period keeps order, both ways, and undoes a division by it. */
  lemma Scale(a: real, b: real, period: real)
    requires period > 0.0
    ensures a < b <==> a * period < b * period
    ensures a <= b <==> a * period <= b * period
  {
    if a < b { Positive(b - a, period); }
    if b < a { Positive(a - b, period); }
  }

  lemma Positive(a: real, b: real)
    requires a > 0.0 && b > 0.0
    ensures a * b > 0.0
  {
  }

  lemma Divide(a: real, period: real)
    requires period > 0.0
    ensures (a / period) * period == a
  {
  }

  lemma CeilingIsLeast(x: real, n: int)
    ensures x <= Ceiling(x) as real < x + 1.0
    ensures n as real < x <==> n < Ceiling(x)
  {
    if n < Ceiling(x) { assert n as real <= (Ceiling(x) - 1) as real; }
    if Ceiling(x) <= n { assert Ceiling(x) as real <= n as real; }
  }

  /**
   The register is the number of whole cycles at the moment the remaining delay ends, which is less than a cycle away.
   */
  lemma ReadExact(start: real, now: real, period: real)
    requires period > 0.0 && now >= start
    ensures var (timer, delay) := Update(start, now, period);
      && 0.0 <= delay < period
      && start + timer as real * period == now + delay
      && timer >= 0
  {
    var cycles := (now - start) / period;
    Divide(now - start, period);
    CeilingIsLeast(cycles, -1);
    var (timer, delay) := Update(start, now, period);
    Remaining(timer as real, cycles, delay, period);
    Scale(-1.0, cycles, period);
    assert -1.0 * period == -period;
  }

  lemma Remaining(timer: real, cycles: real, delay: real, period: real)
    requires period > 0.0 && cycles <= timer < cycles + 1.0 && delay == (timer - cycles) * period
    ensures delay == timer * period - cycles * period
    ensures 0.0 <= delay < period
  {
    Fraction(timer - cycles, delay, period);
  }

  lemma Fraction(rest: real, delay: real, period: real)
    requires period > 0.0 && 0.0 <= rest < 1.0 && delay == rest * period
    ensures 0.0 <= delay < period
  {
    Scale(0.0, rest, period);
    Scale(rest, 1.0, period);
    assert 0.0 * period == 0.0 && 1.0 * period == period;
  }

  /** The register passes a cycle number exactly when the time of the read is past that many whole periods. */
  lemma ReadPasses(start: real, now: real, period: real, n: int)
    requires period > 0.0
    ensures n < Update(start, now, period).0 <==> start + n as real * period < now
  {
    var cycles := (now - start) / period;
    CeilingIsLeast(cycles, n);
    Divide(now - start, period);
    Scale(n as real, cycles, period);
  }

  /**
   A second read sees the timer more than `m` cycles further exactly when it comes more than `m` cycles after the
   first one ended, its delay consumed. So reads that consume their delay never step back, and step on once any time
   has passed.
   */
  lemma ReadsIncrease(start: real, first: real, second: real, period: real, m: int)
    requires period > 0.0 && first >= start
    ensures var (timer, delay) := Update(start, first, period);
      Update(start, second, period).0 > timer + m <==> second > first + delay + m as real * period
  {
    var (timer, delay) := Update(start, first, period);
    ReadExact(start, first, period);
    ReadPasses(start, second, period, timer + m);
    Distribute(timer, m, period);
  }

  lemma Distribute(a: int, b: int, period: real)
    ensures (a + b) as real * period == a as real * period + b as real * period
  {
    assert (a + b) as real == a as real + b as real;
  }

  /** Bus cycles that an access of `length` bytes takes on a bus of `width` bytes. */
  function Beats(length: nat, width: nat): (n: nat)
    requires width > 0
    ensures length == 0 ==> n == 0
    ensures length > 0 ==> n > 0
  {
    (length + width - 1) / width
  }

  /** As many as are needed to carry the data, and not one more. */
  lemma BeatsExact(length: nat, width: nat)
    requires width > 0 && length > 0
    ensures (Beats(length, width) - 1) * width < length <= Beats(length, width) * width
  {
    var n := Beats(length, width);
    var rest := (length + width - 1) % width;
    assert length + width - 1 == n * width + rest;
    assert (n - 1) * width == n * width - width;
  }

  /** The time that so many bus cycles take. */
  function Span(beats: nat, period: real): real { beats as real * period }

  /** A read through the bus at time `now`: the register, and the delay that the initiator has to consume. */
  function BusRead(start: real, now: real, period: real, beats: nat): (int, real)
    requires period > 0.0
  {
    var (timer, delay) := Update(start, now, period);
    (timer, delay + Span(beats, period))
  }

  /** The whole delay of a read ends where the register and its bus cycles say. */
  lemma BusReadExact(start: real, now: real, period: real, beats: nat)
    requires period > 0.0 && now >= start
    ensures var (timer, delay) := BusRead(start, now, period, beats);
      start + (timer + beats) as real * period == now + delay
  {
    ReadExact(start, now, period);
    Distribute(Update(start, now, period).0, beats, period);
  }

  /**
   A read that comes once the delay of the previous one is consumed sees the timer further by that one's bus cycles.
   */
  lemma ConsumedReadIncreases(start: real, first: real, second: real, period: real, beats: nat)
    requires period > 0.0 && first >= start && second >= first + BusRead(start, first, period, beats).1
    ensures BusRead(start, second, period, 0).0 >= BusRead(start, first, period, 0).0 + beats
  {
    ReadsIncrease(start, first, second, period, beats - 1);
    Distribute(beats - 1, 1, period);
    assert 1.0 * period == period;
  }

  /** One read of a sequence of reads, `length` bytes long. */
  datatype Read = Read(now: real, length: nat)

  /** Every read carries data and comes once the delay of the one before is consumed. */
  predicate Consuming(accesses: seq<Read>, start: real, period: real, width: nat)
    requires period > 0.0 && width > 0
  {
    && (forall i | 0 <= i < |accesses| :: accesses[i].now >= start && accesses[i].length > 0)
    && (forall i | 0 < i < |accesses| ::
          var before := accesses[i - 1];
          accesses[i].now >= before.now + BusRead(start, before.now, period, Beats(before.length, width)).1)
  }

  /** Successive reads that consume their delay return strictly increasing values. */
  lemma {:induction false} ReadsStrictlyIncrease(accesses: seq<Read>, start: real, period: real, width: nat,
                                                 i: nat, j: nat)
    requires period > 0.0 && width > 0 && Consuming(accesses, start, period, width) && i < j < |accesses|
    ensures Update(start, accesses[i].now, period).0 < Update(start, accesses[j].now, period).0
    decreases j
  {
    hide Update, Beats;
    var before := accesses[j - 1];
    ConsumedReadIncreases(start, before.now, accesses[j].now, period, Beats(before.length, width));
    if i < j - 1 {
      ReadsStrictlyIncrease(accesses, start, period, width, i, j - 1);
    }
  }

  /** The timer's fields, changed in place; `now` is the simulation time. */
  class TimerRegisters {
    const period: real
    var startTime: real
    var startTimeValid: bool
    var timerDone: Option<real>
    var timer: int

    ghost function Abs(): Timer reads this {
      Timer(if startTimeValid then Some(startTime) else None, timerDone)
    }

    constructor (period: real)
      requires period > 0.0
      ensures this.period == period && Abs() == StartAll([], period)
    {
      this.period := period;
      startTime, startTimeValid, timerDone, timer := 0.0, false, None, 0;
    }

    method StartTimer(now: real, delay: real)
      modifies this
      ensures Abs() == Start(old(Abs()), Command(now, delay), period) && timer == old(timer)
    {
      var newStartTime := now + delay;
      if startTimeValid {
        startTime := Min(startTime, newStartTime);
      } else {
        startTime, startTimeValid := newStartTime, true;
      }
      var done := startTime + CYCLES as real * period;
      if done >= now {
        timerDone := Notify(timerDone, done);
      }
    }

    /** `update_timer` at time `now` with a delay still to consume, before the 32-bit register rolls over. */
    method UpdateTimer(now: real, delay: real) returns (left: real)
      requires period > 0.0 && delay >= 0.0
      requires startTimeValid ==> startTime <= now + delay <= startTime + (CYCLES - 1) as real * period
      modifies this`timer
      ensures startTimeValid ==> 0.0 <= left < period && startTime + timer as real * period == now + delay + left
      ensures startTimeValid ==> (timer, left) == Update(startTime, now + delay, period) && 0 <= timer < CYCLES
      ensures !startTimeValid ==> left == 0.0 && timer == old(timer)
    {
      hide Left, Ceiling;
      left := 0.0;
      var time := now + delay;
      if startTimeValid {
        var timerCycles := (time - startTime) / period;
        ReadExact(startTime, time, period);
        ReadPasses(startTime, time, period, CYCLES - 1);
        timer := Ceiling(timerCycles);
        left := Left(timer as real, timerCycles, period);
      }
    }

    /** The read part of `b_transport`, for an access of `length` bytes on a bus of `width` bytes. */
    method ReadTransport(now: real, delay: real, length: nat, width: nat) returns (left: real)
      requires period > 0.0 && delay >= 0.0 && width > 0
      requires startTimeValid ==> startTime <= now + delay <= startTime + (CYCLES - 1) as real * period
      modifies this`timer
      ensures startTimeValid ==> (timer, left) == BusRead(startTime, now + delay, period, Beats(length, width))
      ensures !startTimeValid ==> timer == old(timer) && left == Span(Beats(length, width), period)
    {
      hide Update, Span, Beats;
      left := UpdateTimer(now, delay);
      left := left + Span(Beats(length, width), period);
    }
  }
}
