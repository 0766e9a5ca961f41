/**
 The hand-off between control writes and the thread `system_bus_writer` of `riscv_signals`, in SystemC's
 evaluate-notify cycles: a zero-time notification fires at the next delta, all at once with the end of
 every zero-time wait, and it is lost if nobody waits for it then.
 */
module RiscvWriter {
  /** Where the writer thread is. */
  datatype Place =
    | Top       // about to test the pending flag
    | Waiting   // for the event
    | Woken     // the event fired
    | Pausing   // in the zero-time wait
    | Resumed   // past the zero-time wait
    | InBus     // in the blocking call on the system bus

  datatype Mark = Triggered | Written

  datatype State = State(place: Place, pending: bool, notified: bool, log: seq<Mark>)

  datatype Step = Trigger | Proceed | BusReturns | Delta

  const INITIAL := State(Top, false, false, [])

  predicate Runnable(p: Place) { p.Top? || p.Woken? || p.Resumed? }

  /** The scheduler starts a new delta only when no process can run and something is due in it. */
  predicate Enabled(s: State, step: Step) {
    match step
    case Trigger => true
    case Proceed => Runnable(s.place)
    case BusReturns => s.place.InBus?
    case Delta => !Runnable(s.place) && (s.notified || s.place.Pausing?)
  }

  /** A control write that leaves a nonzero trigger in a word it overlaps. */
  function DoTrigger(s: State): State {
    s.(pending := true, notified := true, log := s.log + [Triggered])
  }

  /** The writer runs to its next wait. */
  function DoProceed(s: State): State {
    match s.place
    case Top => if s.pending then s.(pending := false, place := Pausing) else s.(place := Waiting)
    case Woken => s.(pending := false, place := Pausing)
    case Resumed => s.(place := InBus, log := s.log + [Written])
    case _ => s
  }

  function DoDelta(s: State): State {
    s.(notified := false,
       place := match s.place
                case Waiting => if s.notified then Woken else Waiting
                case Pausing => Resumed
                case p => p)
  }

  function Next(s: State, step: Step): State {
    match step
    case Trigger => DoTrigger(s)
    case Proceed => DoProceed(s)
    case BusReturns => s.(place := Top)
    case Delta => DoDelta(s)
  }

  ghost predicate Runs(s: State, steps: seq<Step>, s': State)
    decreases |steps|
  {
    if steps == [] then s' == s
    else Enabled(s, steps[0]) && Runs(Next(s, steps[0]), steps[1..], s')
  }

  ghost predicate Reachable(s: State) {
    exists steps :: Runs(INITIAL, steps, s)
  }

  // ---------------------------------------------------------------- reading the log

  function Triggers(log: seq<Mark>): nat {
    if log == [] then 0 else Triggers(log[..|log| - 1]) + if log[|log| - 1].Triggered? then 1 else 0
  }

  function Writes(log: seq<Mark>): nat {
    if log == [] then 0 else Writes(log[..|log| - 1]) + if log[|log| - 1].Written? then 1 else 0
  }

  /** Some trigger has no write after it yet. */
  ghost predicate Unserved(log: seq<Mark>) {
    exists i :: 0 <= i < |log| && log[i].Triggered? && forall j | i < j < |log| :: log[j].Triggered?
  }

  /** Every trigger is followed by a later write. */
  ghost predicate AllServed(log: seq<Mark>) {
    forall i | 0 <= i < |log| && log[i].Triggered? :: exists j :: i < j < |log| && log[j].Written?
  }

  lemma ServedOrNot(log: seq<Mark>)
    ensures AllServed(log) || Unserved(log)
  {
    if i :| 0 <= i < |log| && log[i].Triggered? && !(exists j :: i < j < |log| && log[j].Written?) {
      assert Unserved(log) by {
        assert forall j | i < j < |log| :: log[j].Triggered?;
      }
    }
  }

  lemma Count(log: seq<Mark>, m: Mark)
    ensures Triggers(log + [m]) == Triggers(log) + if m.Triggered? then 1 else 0
    ensures Writes(log + [m]) == Writes(log) + if m.Written? then 1 else 0
  {
    assert (log + [m])[..|log|] == log;
  }

  /** After a write nothing is unserved. */
  lemma WriteServes(log: seq<Mark>)
    ensures !Unserved(log + [Written])
  {
    var after := log + [Written];
    assert after[|log|].Written?;
  }

  // ---------------------------------------------------------------- invariant

  /** A write is under way: the flag was taken, the bus call has not begun. */
  predicate UnderWay(s: State) { s.place.Pausing? || s.place.Resumed? }

  ghost predicate Inv(s: State) {
    // a waiting writer with a trigger pending has its wake-up scheduled, and has no other wake-up coming
    && (s.place.Waiting? ==> s.pending == s.notified)
    && (s.place.Woken? ==> s.pending)
    && Writes(s.log) + (if UnderWay(s) then 1 else 0) + (if s.pending then 1 else 0) <= Triggers(s.log)
    && (Unserved(s.log) ==> s.pending || UnderWay(s))
    // a notification outlives its delta's evaluation only where the writer cannot reach its wait in time
    && (s.notified && !s.pending ==> s.place.Pausing?)
  }

  lemma StepKeeps(s: State, step: Step)
    requires Inv(s) && Enabled(s, step)
    ensures Inv(Next(s, step))
  {
    hide Unserved, Triggers, Writes;
    match step
    case Trigger => Count(s.log, Triggered);
    case Proceed =>
      if s.place.Resumed? {
        Count(s.log, Written);
        WriteServes(s.log);
      }
    case _ =>
  }

  lemma {:induction false} RunKeeps(s: State, steps: seq<Step>, s': State)
    requires Inv(s) && Runs(s, steps, s')
    ensures Inv(s')
    decreases |steps|
  {
    if steps != [] {
      StepKeeps(s, steps[0]);
      RunKeeps(Next(s, steps[0]), steps[1..], s');
    }
  }

  /** No wake-up is lost and none is spurious; and the bus is never written more often than triggered. */
  lemma NoLostTrigger(s: State)
    requires Reachable(s)
    ensures s.place.Waiting? ==> (s.pending <==> s.notified)
    ensures Writes(s.log) <= Triggers(s.log)
  {
    var steps :| Runs(INITIAL, steps, s);
    RunKeeps(INITIAL, steps, s);
  }

  // ---------------------------------------------------------------- every trigger is served

  /** Steps until the next write begins, when one is owed. */
  function Rank(s: State): nat {
    match s.place
    case Resumed => 1
    case Pausing => 2
    case Top => 3
    case Woken => 3
    case Waiting => 4
    case InBus => 4
  }

  /**
   While a trigger is unserved, some step other than a new trigger can happen, and every such step either is the
   write or brings it nearer; further triggers do not put it off.
   */
  lemma Owed(s: State, step: Step)
    requires Inv(s) && Unserved(s.log) && Enabled(s, step)
    ensures Enabled(s, Proceed) || Enabled(s, BusReturns) || Enabled(s, Delta)
    ensures var t := Next(s, step);
      || t.log == s.log + [Written]
      || (t.log == s.log && Rank(t) < Rank(s))
      || (step.Trigger? && Rank(t) == Rank(s))
      || (step.Delta? && s.place.InBus? && t == s.(notified := false))
  {
  }

  lemma {:induction false} WritesStay(s: State, steps: seq<Step>, t: State)
    requires Runs(s, steps, t)
    ensures Writes(t.log) >= Writes(s.log)
    decreases |steps|
  {
    if steps != [] {
      Count(s.log, Triggered);
      Count(s.log, Written);
      WritesStay(Next(s, steps[0]), steps[1..], t);
    }
  }

  /** The steps of a run that are neither new triggers nor deltas that pass while the bus call lasts. */
  function Advances(s: State, steps: seq<Step>): nat
    decreases |steps|
  {
    if steps == [] then 0
    else (if steps[0].Trigger? || (steps[0].Delta? && s.place.InBus?) then 0 else 1)
         + Advances(Next(s, steps[0]), steps[1..])
  }

  lemma StillUnserved(s: State)
    requires Unserved(s.log)
    ensures Unserved(DoTrigger(s).log)
  {
    var i :| 0 <= i < |s.log| && s.log[i].Triggered? && forall j | i < j < |s.log| :: s.log[j].Triggered?;
    var after := DoTrigger(s).log;
    assert after[i].Triggered? && forall j | i < j < |after| :: after[j].Triggered?;
  }

  /**
   Over any run, with triggers arriving at any moment: once a trigger is unserved, a write follows within `Rank` steps
   of the scheduler that are neither new triggers nor deltas in the bus call.
   */
  lemma {:induction false} Served(s: State, steps: seq<Step>, t: State)
    requires Inv(s) && Unserved(s.log) && Runs(s, steps, t) && Advances(s, steps) >= Rank(s)
    ensures Writes(t.log) > Writes(s.log)
    decreases |steps|
  {
    hide Unserved, Inv;
    var u := Next(s, steps[0]);
    StepKeeps(s, steps[0]);
    Owed(s, steps[0]);
    if u.log == s.log + [Written] {
      Count(s.log, Written);
      WritesStay(u, steps[1..], t);
    } else {
      if steps[0].Trigger? {
        StillUnserved(s);
        Count(s.log, Triggered);
      }
      Served(u, steps[1..], t);
    }
  }

  ghost predicate NoTriggers(steps: seq<Step>) {
    forall step | step in steps :: !step.Trigger?
  }

  function Notified(s: State): nat { if s.notified then 1 else 0 }

  /** Without new triggers at most one delta passes in the bus call. */
  lemma {:induction false} FewIdleDeltas(s: State, steps: seq<Step>, t: State)
    requires Runs(s, steps, t) && NoTriggers(steps)
    ensures |steps| <= Advances(s, steps) + Notified(s)
    decreases |steps|
  {
    if steps != [] { FewIdleDeltas(Next(s, steps[0]), steps[1..], t); }
  }

  /** Every run without new triggers that is long enough writes, if a trigger is unserved at its beginning. */
  lemma ServedInTime(s: State, steps: seq<Step>, t: State)
    requires Inv(s) && Unserved(s.log) && Runs(s, steps, t) && NoTriggers(steps)
    ensures |steps| >= Rank(s) + Notified(s) ==> Writes(t.log) > Writes(s.log)
  {
    FewIdleDeltas(s, steps, t);
    if |steps| >= Rank(s) + Notified(s) { Served(s, steps, t); }
  }

  function Deltas(steps: seq<Step>): nat {
    if steps == [] then 0 else (if steps[0].Delta? then 1 else 0) + Deltas(steps[1..])
  }

  /** Each write has a delta of its own before it, in which the transaction that triggered it can end. */
  lemma {:induction false} DeltaBeforeWrite(s: State, steps: seq<Step>, t: State)
    requires Runs(s, steps, t)
    ensures Writes(t.log) + (if t.place.Resumed? then 1 else 0)
         <= Writes(s.log) + (if s.place.Resumed? then 1 else 0) + Deltas(steps)
    decreases |steps|
  {
    if steps != [] {
      Count(s.log, Triggered);
      Count(s.log, Written);
      DeltaBeforeWrite(Next(s, steps[0]), steps[1..], t);
    }
  }

  /** Over every run from the start the bus is written at most once per delta. */
  lemma OneWritePerDelta(steps: seq<Step>, s: State)
    requires Runs(INITIAL, steps, s)
    ensures Writes(s.log) <= Deltas(steps)
  {
    DeltaBeforeWrite(INITIAL, steps, s);
  }

  /** Steps that are left at most until the writer waits with nothing to do. */
  function Left(s: State): nat {
    match s.place
    case Waiting => if s.pending then 6 else 0
    case Woken => 5
    case Top => if s.pending then 5 else 1
    case InBus => if s.pending then 6 + Notified(s) else 2
    case Resumed => if s.pending then 7 + Notified(s) else 3
    case Pausing => if s.pending then 8 + Notified(s) else 4
  }

  /** Without new triggers every run ends. */
  lemma {:induction false} RunsEnd(s: State, steps: seq<Step>, t: State)
    requires Inv(s) && Runs(s, steps, t) && NoTriggers(steps)
    ensures |steps| + Left(t) <= Left(s)
    decreases |steps|
  {
    hide Unserved;
    if steps != [] {
      StepKeeps(s, steps[0]);
      RunsEnd(Next(s, steps[0]), steps[1..], t);
    }
  }

  /** A run that cannot go on without a new trigger has served every trigger. */
  lemma IdleIsServed(s: State)
    requires Reachable(s) && forall step: Step | Enabled(s, step) :: step.Trigger?
    ensures s.place.Waiting? && !s.pending && AllServed(s.log)
  {
    var steps :| Runs(INITIAL, steps, s);
    RunKeeps(INITIAL, steps, s);
    assert !Enabled(s, Proceed) && !Enabled(s, BusReturns) && !Enabled(s, Delta);
    ServedOrNot(s.log);
  }
}

/**
 The writer thread of `hmp_signals` waits for its event without testing the flags first, and serves both
 cores in one loop. It loses no trigger as long as the bus call does not let a delta pass.
 */
module HmpWriter {
  /** Where the thread is; `InBus(c)` is the bus call for core `c`. */
  datatype Place = Waiting | Woken | Pausing | Resumed | InBus(core: nat)

  datatype State = State(place: Place, pending: seq<bool>, notified: bool, writes: seq<nat>)

  datatype Step = Trigger(core: nat) | Proceed | BusReturns | Delta

  const INITIAL := State(Waiting, [false, false], false, [0, 0])

  predicate Shaped(s: State) {
    |s.pending| == 2 && |s.writes| == 2 && (s.place.InBus? ==> s.place.core < 2)
  }

  predicate Runnable(p: Place) { p.Woken? || p.Resumed? }

  predicate Enabled(s: State, step: Step) {
    match step
    case Trigger(c) => c < 2
    case Proceed => Runnable(s.place)
    case BusReturns => s.place.InBus?
    case Delta => !Runnable(s.place) && (s.notified || s.place.Pausing?)
  }

  /** The loop from core `c` on; when the bus yields, the thread stays in the call of the first core it serves. */
  function Serve(s: State, c: nat, yielding: bool): (t: State)
    requires Shaped(s) && c <= 2
    ensures Shaped(t)
    decreases 2 - c
  {
    if c == 2 then s.(place := Waiting)
    else if !s.pending[c] then Serve(s, c + 1, yielding)
    else
      var t := s.(pending := s.pending[c := false], writes := s.writes[c := s.writes[c] + 1], place := InBus(c));
      if yielding then t else Serve(t, c + 1, yielding)
  }

  function Next(s: State, step: Step, yielding: bool): (t: State)
    requires Shaped(s) && Enabled(s, step)
    ensures Shaped(t)
  {
    match step
    case Trigger(c) => s.(pending := s.pending[c := true], notified := true)
    case Proceed => if s.place.Woken? then s.(place := Pausing) else Serve(s, 0, yielding)
    case BusReturns => Serve(s, s.place.core + 1, yielding)
    case Delta =>
      s.(notified := false,
         place := match s.place
                  case Waiting => if s.notified then Woken else Waiting
                  case Pausing => Resumed
                  case p => p)
  }

  /** A pending trigger that nothing will wake the thread for. */
  predicate Lost(s: State, c: nat)
    requires Shaped(s) && c < 2
  {
    s.place.Waiting? && s.pending[c] && !s.notified
  }

  /** Runs on a bus whose calls all yield, or none. */
  ghost predicate Runs(s: State, steps: seq<Step>, s': State, yielding: bool)
    requires Shaped(s)
    decreases |steps|
  {
    if steps == [] then s' == s
    else Enabled(s, steps[0]) && Runs(Next(s, steps[0], yielding), steps[1..], s', yielding)
  }

  ghost predicate Reachable(s: State, yielding: bool) {
    exists steps :: Runs(INITIAL, steps, s, yielding)
  }

  predicate Inv(s: State) {
    Shaped(s) && !s.place.InBus? && (s.place.Waiting? && (s.pending[0] || s.pending[1]) ==> s.notified)
  }

  lemma ServedAll(s: State)
    requires Shaped(s)
    ensures var t := Serve(s, 0, false); t.place.Waiting? && t.pending == [false, false] && t.notified == s.notified
    ensures forall c | 0 <= c < 2 :: Serve(s, 0, false).writes[c] == s.writes[c] + if s.pending[c] then 1 else 0
  {
    var t0 := if s.pending[0]
      then s.(pending := s.pending[0 := false], writes := s.writes[0 := s.writes[0] + 1], place := InBus(0)) else s;
    assert Serve(s, 0, false) == Serve(t0, 1, false);
    var t1 := if t0.pending[1]
      then t0.(pending := t0.pending[1 := false], writes := t0.writes[1 := t0.writes[1] + 1], place := InBus(1))
      else t0;
    assert Serve(t0, 1, false) == Serve(t1, 2, false);
    assert t1.pending == [false, false];
  }

  lemma {:induction false} RunKeeps(s: State, steps: seq<Step>, s': State)
    requires Inv(s) && Runs(s, steps, s', false)
    ensures Inv(s')
    decreases |steps|
  {
    if steps != [] {
      ServedAll(s);
      RunKeeps(Next(s, steps[0], false), steps[1..], s');
    }
  }

  /** With a bus call that does not yield, no run loses a trigger. */
  lemma NothingLostWithoutYield(s: State, c: nat)
    requires Reachable(s, false) && c < 2
    ensures Shaped(s) && !Lost(s, c)
  {
    var steps :| Runs(INITIAL, steps, s, false);
    RunKeeps(INITIAL, steps, s);
  }

  /** The steps of a run that are not new triggers. */
  function Advances(steps: seq<Step>): nat {
    if steps == [] then 0 else (if steps[0].Trigger? then 0 else 1) + Advances(steps[1..])
  }

  /** Steps until the loop has served both cores, when a trigger is pending. */
  function Rank(s: State): nat {
    match s.place
    case Waiting => 4
    case Woken => 3
    case Pausing => 2
    case _ => 1
  }

  /** On such a bus a step drops a pending trigger only by writing it, and all steps but triggers bring that nearer. */
  lemma StepServes(s: State, step: Step, c: nat)
    requires Inv(s) && Enabled(s, step) && c < 2
    ensures var t := Next(s, step, false);
      && Inv(t) && t.writes[c] >= s.writes[c]
      && (s.pending[c] ==>
            || t.writes[c] == s.writes[c] + 1
            || (t.pending[c] && if step.Trigger? then Rank(t) == Rank(s) else Rank(t) < Rank(s)))
    ensures s.pending[c] ==> Enabled(s, Proceed) || Enabled(s, Delta)
  {
    hide Serve;
    ServedAll(s);
  }

  lemma {:induction false} RunServes(s: State, steps: seq<Step>, t: State, c: nat)
    requires Inv(s) && Runs(s, steps, t, false) && c < 2
    ensures Shaped(t) && t.writes[c] >= s.writes[c]
    ensures s.pending[c] && Advances(steps) >= Rank(s) ==> t.writes[c] > s.writes[c]
    decreases |steps|
  {
    hide Next;
    if steps != [] {
      StepServes(s, steps[0], c);
      RunServes(Next(s, steps[0], false), steps[1..], t, c);
    }
  }

  /**
   On such a bus, wherever a run stands, a pending trigger of core `c` is written within `Rank` steps that are not new
   triggers, however many triggers of either core arrive on the way; and until then such a step is possible.
   */
  lemma ServedWithoutYield(s: State, steps: seq<Step>, t: State, c: nat)
    requires Reachable(s, false) && Shaped(s) && c < 2 && s.pending[c] && Runs(s, steps, t, false)
    ensures Shaped(t) && (Advances(steps) >= Rank(s) ==> t.writes[c] > s.writes[c])
    ensures t.writes[c] == s.writes[c] ==> Enabled(t, Proceed) || Enabled(t, Delta)
  {
    var before :| Runs(INITIAL, before, s, false);
    RunKeeps(INITIAL, before, s);
    RunServes(s, steps, t, c);
    RunKeeps(s, steps, t);
    StillPending(s, steps, t, c);
  }

  lemma {:induction false} StillPending(s: State, steps: seq<Step>, t: State, c: nat)
    requires Inv(s) && Runs(s, steps, t, false) && c < 2 && s.pending[c]
    ensures Shaped(t) && (t.writes[c] == s.writes[c] ==> t.pending[c])
    decreases |steps|
  {
    hide Next;
    if steps != [] {
      var u := Next(s, steps[0], false);
      StepServes(s, steps[0], c);
      if u.pending[c] {
        StillPending(u, steps[1..], t, c);
      }
      RunServes(u, steps[1..], t, c);
    }
  }

  function Deltas(steps: seq<Step>): nat {
    if steps == [] then 0 else (if steps[0].Delta? then 1 else 0) + Deltas(steps[1..])
  }

  /** Deltas that have passed towards the next write for core `c`. */
  function Passed(s: State, c: nat): nat {
    match s.place
    case Waiting => 0
    case Woken => 1
    case Pausing => 1
    case Resumed => 2
    case InBus(d) => if d < c then 2 else 0
  }

  lemma ServeWrites(s: State, c: nat, from: nat, yielding: bool)
    requires Shaped(s) && c < 2 && from <= 2
    ensures var t := Serve(s, from, yielding);
      2 * t.writes[c] + Passed(t, c) <= 2 * s.writes[c] + if from <= c then 2 else 0
    decreases 2 - from
  {
    if from < 2 {
      if !s.pending[from] {
        ServeWrites(s, c, from + 1, yielding);
      } else if !yielding {
        var t := s.(pending := s.pending[from := false], writes := s.writes[from := s.writes[from] + 1],
                    place := InBus(from));
        ServeWrites(t, c, from + 1, yielding);
      }
    }
  }

  /** Each write of a core has two deltas of its own before it: one that wakes the thread, and its zero-time wait. */
  lemma {:induction false} DeltasBeforeWrite(s: State, steps: seq<Step>, t: State, yielding: bool, c: nat)
    requires Shaped(s) && Runs(s, steps, t, yielding) && c < 2
    ensures Shaped(t) && 2 * t.writes[c] + Passed(t, c) <= 2 * s.writes[c] + Passed(s, c) + Deltas(steps)
    decreases |steps|
  {
    hide Serve;
    if steps != [] {
      if s.place.InBus? { ServeWrites(s, c, s.place.core + 1, yielding); }
      ServeWrites(s, c, 0, yielding);
      DeltasBeforeWrite(Next(s, steps[0], yielding), steps[1..], t, yielding, c);
    }
  }

  /** Over every run from the start a core is written for at most once in two deltas, whether the bus yields or not. */
  lemma OneWriteInTwoDeltas(steps: seq<Step>, s: State, yielding: bool, c: nat)
    requires Runs(INITIAL, steps, s, yielding) && c < 2
    ensures Shaped(s) && 2 * s.writes[c] <= Deltas(steps)
  {
    DeltasBeforeWrite(INITIAL, steps, s, yielding, c);
  }

  // ---------------------------------------------------------------- a bus whose calls yield

  lemma ServeYields(s: State, c: nat)
    requires Shaped(s) && c <= 2
    ensures Serve(s, c, true) ==
      if c == 0 && s.pending[0] then
        s.(pending := s.pending[0 := false], writes := s.writes[0 := s.writes[0] + 1], place := InBus(0))
      else if c <= 1 && s.pending[1] then
        s.(pending := s.pending[1 := false], writes := s.writes[1 := s.writes[1] + 1], place := InBus(1))
      else s.(place := Waiting)
  {
    if c == 0 && !s.pending[0] { assert Serve(s, 0, true) == Serve(s, 1, true); }
    if c <= 1 && !s.pending[1] { assert Serve(s, 1, true) == Serve(s, 2, true); }
  }

  /** A stretch without new triggers from a bus call to the moment at which the thread first waits again. */
  ghost predicate CallRuns(s: State, steps: seq<Step>, t: State)
    requires Shaped(s)
    decreases |steps|
  {
    if steps == [] then s == t && s.place.Waiting?
    else s.place.InBus? && (steps[0].Delta? || steps[0].BusReturns?) && Enabled(s, steps[0])
         && CallRuns(Next(s, steps[0], true), steps[1..], t)
  }

  /**
   With a bus call that yields, for any state in a call and however the calls of the loop go on: a trigger for core
   `c` is lost exactly when it is pending for a core that the loop has reached already, and its notification fires
   before the loop ends, or has fired. Every trigger for a core still to come is written once.
   */
  lemma {:induction false} LostDuringCall(s: State, steps: seq<Step>, t: State, c: nat)
    requires Shaped(s) && s.place.InBus? && CallRuns(s, steps, t) && c < 2
    ensures Shaped(t) && (Lost(t, c) <==> s.pending[c] && c <= s.place.core && (!s.notified || Delta in steps))
    ensures t.writes == s.writes[1 := s.writes[1] + if s.pending[1] && s.place.core == 0 then 1 else 0]
    decreases |steps|
  {
    var u := Next(s, steps[0], true);
    ServeYields(s, s.place.core + 1);
    assert steps == [steps[0]] + steps[1..];
    if u.place.InBus? {
      LostDuringCall(u, steps[1..], t, c);
    } else {
      assert steps[1..] == [];
    }
  }

  lemma {:induction false} CallIsRun(s: State, steps: seq<Step>, t: State)
    requires Shaped(s) && CallRuns(s, steps, t)
    ensures Runs(s, steps, t, true)
    decreases |steps|
  {
    if steps != [] { CallIsRun(Next(s, steps[0], true), steps[1..], t); }
  }

  lemma {:induction false} RunThenRun(s: State, steps: seq<Step>, u: State, more: seq<Step>, t: State)
    requires Shaped(s) && Shaped(u) && Runs(s, steps, u, true) && Runs(u, more, t, true)
    ensures Runs(s, steps + more, t, true)
    decreases |steps|
  {
    if steps == [] {
      assert steps + more == more;
    } else {
      assert (steps + more)[0] == steps[0] && (steps + more)[1..] == steps[1..] + more;
      RunThenRun(Next(s, steps[0], true), steps[1..], u, more, t);
    }
  }

  /**
   The same for runs: wherever a run stands in a bus call, the end of the loop is reached with exactly these losses.
   */
  lemma ReachableLosses(s: State, steps: seq<Step>, t: State, c: nat)
    requires Reachable(s, true) && Shaped(s) && s.place.InBus? && CallRuns(s, steps, t) && c < 2
    ensures Reachable(t, true) && Shaped(t)
    ensures Lost(t, c) <==> s.pending[c] && c <= s.place.core && (!s.notified || Delta in steps)
  {
    var before :| Runs(INITIAL, before, s, true);
    CallIsRun(s, steps, t);
    RunThenRun(INITIAL, before, s, steps, t);
    assert Reachable(t, true);
    LostDuringCall(s, steps, t, c);
  }

  /** A loss begins at the return of a bus call and nowhere else, and only a new trigger can end it. */
  lemma LossBegins(s: State, step: Step, c: nat)
    requires Shaped(s) && Enabled(s, step) && c < 2
    ensures !Lost(s, c) ==> (Lost(Next(s, step, true), c) <==>
              && step.BusReturns? && s.pending[c] && c <= s.place.core && !s.notified
              && (s.place.core == 0 ==> !s.pending[1]))
    ensures Lost(s, c) ==> step.Trigger?
  {
    ServeYields(s, 0);
    if s.place.InBus? { ServeYields(s, s.place.core + 1); }
  }

  /**
   Losses do happen: for any two cores `c <= d` a run reaches the call for core `d` and loses a trigger of core `c`.
   */
  lemma LossHappens(c: nat, d: nat)
    requires c <= d < 2
    ensures exists s, steps, t :: Reachable(s, true) && Shaped(s) && s.place == InBus(d)
              && CallRuns(s, steps, t) && Shaped(t) && Lost(t, c)
  {
    var start := INITIAL.(pending := INITIAL.pending[d := true], notified := true);
    var inCall := State(InBus(d), [false, false], false, [0, 0][d := 1]);
    ServeYields(start.(place := Resumed, notified := false), 0);
    assert start.pending[d := false] == [false, false];
    CalledRun(start, inCall, d);
    var s := Next(inCall, Trigger(c), true);
    var fired := s.(notified := false);
    var t := fired.(place := Waiting);
    ServeYields(fired, d + 1);
    assert [Trigger(c)][1..] == [] && Runs(s, [], s, true);
    RunThenRun(INITIAL, [Trigger(d), Delta, Proceed, Delta, Proceed], inCall, [Trigger(c)], s);
    assert Reachable(s, true);
    assert [Delta, BusReturns][1..] == [BusReturns] && [BusReturns][1..] == [];
    assert CallRuns(t, [], t);
    assert CallRuns(fired, [BusReturns], t);
    assert CallRuns(s, [Delta, BusReturns], t);
  }

  lemma CalledRun(start: State, inCall: State, d: nat)
    requires d < 2 && start == INITIAL.(pending := INITIAL.pending[d := true], notified := true)
    requires inCall == Serve(start.(place := Resumed, notified := false), 0, true)
    ensures Runs(INITIAL, [Trigger(d), Delta, Proceed, Delta, Proceed], inCall, true)
  {
    var woken := start.(place := Woken, notified := false);
    var resumed := woken.(place := Resumed);
    assert [Proceed][1..] == [] && [Delta, Proceed][1..] == [Proceed];
    assert [Proceed, Delta, Proceed][1..] == [Delta, Proceed];
    assert [Delta, Proceed, Delta, Proceed][1..] == [Proceed, Delta, Proceed];
    assert [Trigger(d), Delta, Proceed, Delta, Proceed][1..] == [Delta, Proceed, Delta, Proceed];
    assert Runs(inCall, [], inCall, true);
    assert Runs(resumed, [Proceed], inCall, true);
    assert Runs(woken.(place := Pausing), [Delta, Proceed], inCall, true);
    assert Runs(woken, [Proceed, Delta, Proceed], inCall, true);
    assert Runs(start, [Delta, Proceed, Delta, Proceed], inCall, true);
  }
}
