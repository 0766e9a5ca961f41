/**
 The ping-pong program: two cores run the same seventeen instructions over one shared counter. A core adds
 one when the counter is below the limit and has the core's own parity; load, add and store are three
 separate instructions, and any instructions of the other core may come between them.
 */
module PingPong {
  /**
   A core. `pc` numbers the instructions from 0 (movs r4) to 16 (b .); `less` and `equal` are the flags
   that the two conditional branches read.
   */
  datatype Core = Core(pc: nat, r3: int, r4: int, r5: int, r6: int, less: bool, equal: bool)

  /** The counter, and each core's words INCREMENTS and DONE in the shared memory. */
  datatype Shared = Shared(counter: int, increments: seq<int>, done: seq<int>)

  datatype State = State(core: seq<Core>, shared: Shared)

  const HALT: nat := 16

  /** One instruction of core `p`, whose register r2 holds its parity `p`. */
  function Execute(c: Core, m: Shared, p: nat, limit: nat): (Core, Shared)
    requires p < 2 && |m.increments| == 2 && |m.done| == 2
  {
    var next := c.(pc := c.pc + 1);
    match c.pc
    case 0 => (next.(r4 := limit), m)                            // movs r4, #limit
    case 1 => (next.(r5 := 0), m)                                // movs r5, #0
    case 2 => (next.(r3 := m.counter), m)                        // loop: ldr r3, [r1]
    case 3 => (next.(less := c.r3 < c.r4, equal := c.r3 == c.r4), m) // cmp r3, r4
    case 4 => (if c.less then next else c.(pc := 13), m)         // bge done
    case 5 => (next.(r6 := 1), m)                                // movs r6, #1
    case 6 => (next.(r6 := c.r3 % 2), m)                         // ands r6, r3
    case 7 => (next.(less := c.r6 < p, equal := c.r6 == p), m)   // cmp r6, r2
    case 8 => (if c.equal then next else c.(pc := 2), m)         // bne loop
    case 9 => (next.(r3 := c.r3 + 1), m)                         // adds r3, #1
    case 10 => (next, m.(counter := c.r3))                       // str r3, [r1]
    case 11 => (next.(r5 := c.r5 + 1), m)                        // adds r5, #1
    case 12 => (c.(pc := 2), m)                                  // b loop
    case 13 => (next, m.(increments := m.increments[p := c.r5])) // done: str r5, [r0, #INCREMENTS]
    case 14 => (next.(r3 := 1), m)                               // movs r3, #1
    case 15 => (next, m.(done := m.done[p := c.r3]))             // str r3, [r0, #DONE]
    case _ => (c, m)                                             // b .
  }

  predicate Shaped(s: State) {
    |s.core| == 2 && |s.shared.increments| == 2 && |s.shared.done| == 2
  }

  /** Core `p` executes one instruction. */
  function Next(s: State, p: nat, limit: nat): (s': State)
    requires Shaped(s) && p < 2
    ensures Shaped(s')
  {
    var (c, m) := Execute(s.core[p], s.shared, p, limit);
    State(s.core[p := c], m)
  }

  /** Zeroed memory and cores about to start, with anything in their registers. */
  predicate Initial(s: State) {
    && Shaped(s)
    && s.core[0].pc == 0 && s.core[1].pc == 0
    && s.shared == Shared(0, [0, 0], [0, 0])
  }

  function Number(core1: bool): nat { if core1 then 1 else 0 }

  /** The schedule says which core executes next. */
  function Run(s: State, schedule: seq<bool>, limit: nat): (s': State)
    requires Shaped(s)
    ensures Shaped(s')
    decreases |schedule|
  {
    if schedule == [] then s else Run(Next(s, Number(schedule[0]), limit), schedule[1..], limit)
  }

  // ---------------------------------------------------------------- invariant

  /** Increments that belong to core `p` when the counter stands at `n`: the even core goes first. */
  function Share(p: nat, n: int): int { (n + 1 - p) / 2 }

  /** What core `p` knows about the counter, instruction by instruction. */
  predicate CoreOk(c: Core, m: Shared, p: nat, limit: nat)
    requires p < 2 && |m.increments| == 2 && |m.done| == 2
  {
    && c.pc <= HALT
    && (c.pc >= 1 ==> c.r4 == limit)
    // a loaded value is never ahead of the counter, and is current while its parity is the core's own
    && (3 <= c.pc <= 9 ==> 0 <= c.r3 <= m.counter && (c.r3 % 2 == p && c.r3 < limit ==> c.r3 == m.counter))
    && (c.pc == 4 ==> c.less == (c.r3 < limit))
    && (5 <= c.pc <= 9 ==> c.r3 < limit)
    && (7 <= c.pc <= 8 ==> c.r6 == c.r3 % 2)
    && (c.pc == 8 ==> c.equal == (c.r6 == p))
    && (c.pc == 9 ==> c.r3 % 2 == p)
    && (c.pc == 10 ==> c.r3 == m.counter + 1 && m.counter % 2 == p && m.counter < limit)
    // increments performed: counted in r5, or stored and about to be counted
    && (c.pc < 2 ==> Share(p, m.counter) == 0)
    && (2 <= c.pc ==> c.r5 + (if c.pc == 11 then 1 else 0) == Share(p, m.counter))
    && (c.pc >= 13 ==> m.counter == limit)
    && (c.pc >= 14 ==> m.increments[p] == c.r5)
    && (c.pc == 15 ==> c.r3 == 1)
    && m.done[p] == (if c.pc == HALT then 1 else 0)
  }

  predicate Inv(s: State, limit: nat) {
    && Shaped(s)
    && 0 <= s.shared.counter <= limit
    && CoreOk(s.core[0], s.shared, 0, limit) && CoreOk(s.core[1], s.shared, 1, limit)
  }

  /** The parity that may store is the one whose share grows. */
  lemma ShareGrows(n: int, p: nat)
    requires p < 2 && 0 <= n && n % 2 == p
    ensures Share(p, n + 1) == Share(p, n) + 1 && Share(1 - p, n + 1) == Share(1 - p, n)
  {
  }

  /** The core that executes keeps its own part. */
  lemma OwnStep(c: Core, m: Shared, p: nat, limit: nat)
    requires p < 2 && |m.increments| == 2 && |m.done| == 2 && 0 <= m.counter <= limit
    requires CoreOk(c, m, p, limit)
    ensures var (c', m') := Execute(c, m, p, limit);
      CoreOk(c', m', p, limit) && 0 <= m'.counter <= limit
  {
    if c.pc < 5 {
      Looks(c, m, p, limit);
    } else if c.pc < 10 {
      Decides(c, m, p, limit);
    } else {
      Stores(c, m, p, limit);
    }
  }

  lemma Looks(c: Core, m: Shared, p: nat, limit: nat)
    requires p < 2 && |m.increments| == 2 && |m.done| == 2 && 0 <= m.counter <= limit
    requires CoreOk(c, m, p, limit) && c.pc < 5
    ensures CoreOk(Execute(c, m, p, limit).0, m, p, limit)
  {
  }

  lemma Decides(c: Core, m: Shared, p: nat, limit: nat)
    requires p < 2 && |m.increments| == 2 && |m.done| == 2 && 0 <= m.counter <= limit
    requires CoreOk(c, m, p, limit) && 5 <= c.pc < 10
    ensures CoreOk(Execute(c, m, p, limit).0, m, p, limit)
  {
  }

  lemma Stores(c: Core, m: Shared, p: nat, limit: nat)
    requires p < 2 && |m.increments| == 2 && |m.done| == 2 && 0 <= m.counter <= limit
    requires CoreOk(c, m, p, limit) && 10 <= c.pc
    ensures var (c', m') := Execute(c, m, p, limit);
      CoreOk(c', m', p, limit) && 0 <= m'.counter <= limit
  {
    if c.pc == 10 { ShareGrows(m.counter, p); }
  }

  /** What an instruction changes in the shared memory: the counter in one place, otherwise the core's own words. */
  lemma SharedAfter(c: Core, m: Shared, p: nat, limit: nat)
    requires p < 2 && |m.increments| == 2 && |m.done| == 2
    ensures var m' := Execute(c, m, p, limit).1;
      && |m'.increments| == 2 && |m'.done| == 2
      && m'.counter == (if c.pc == 10 then c.r3 else m.counter)
      && m'.increments[1 - p] == m.increments[1 - p] && m'.done[1 - p] == m.done[1 - p]
  {
  }

  /** The other core's part is not disturbed, even by a store between its load and its store. */
  lemma OtherStep(c: Core, d: Core, m: Shared, p: nat, limit: nat)
    requires p < 2 && |m.increments| == 2 && |m.done| == 2 && 0 <= m.counter <= limit
    requires CoreOk(c, m, p, limit) && CoreOk(d, m, 1 - p, limit)
    ensures CoreOk(d, Execute(c, m, p, limit).1, 1 - p, limit)
  {
    hide Execute;
    SharedAfter(c, m, p, limit);
    var m' := Execute(c, m, p, limit).1;
    if c.pc == 10 {
      StoreSeen(d, m, m', 1 - p, limit);
    } else {
      CounterSame(d, m, m', 1 - p, limit);
    }
  }

  lemma StoreSeen(d: Core, m: Shared, m': Shared, q: nat, limit: nat)
    requires q < 2 && |m.increments| == 2 && |m.done| == 2 && |m'.increments| == 2 && |m'.done| == 2
    requires 0 <= m.counter < limit && m.counter % 2 == 1 - q && m'.counter == m.counter + 1
    requires m'.increments[q] == m.increments[q] && m'.done[q] == m.done[q]
    requires CoreOk(d, m, q, limit)
    ensures CoreOk(d, m', q, limit)
  {
    hide Share;
    ShareGrows(m.counter, 1 - q);
  }

  lemma CounterSame(d: Core, m: Shared, m': Shared, q: nat, limit: nat)
    requires q < 2 && |m.increments| == 2 && |m.done| == 2 && |m'.increments| == 2 && |m'.done| == 2
    requires m'.counter == m.counter && m'.increments[q] == m.increments[q] && m'.done[q] == m.done[q]
    requires CoreOk(d, m, q, limit)
    ensures CoreOk(d, m', q, limit)
  {
    hide Share;
  }

  lemma StepKeeps(s: State, p: nat, limit: nat)
    requires Inv(s, limit) && p < 2
    ensures Inv(Next(s, p, limit), limit)
  {
    hide CoreOk, Execute, Share;
    OwnStep(s.core[p], s.shared, p, limit);
    OtherStep(s.core[p], s.core[1 - p], s.shared, p, limit);
  }

  lemma InitialInv(s: State, limit: nat)
    requires Initial(s)
    ensures Inv(s, limit)
  {
  }

  lemma {:induction false} RunKeeps(s: State, schedule: seq<bool>, limit: nat)
    requires Inv(s, limit)
    ensures Inv(Run(s, schedule, limit), limit)
    decreases |schedule|
  {
    hide CoreOk, Next;
    if schedule != [] {
      StepKeeps(s, Number(schedule[0]), limit);
      RunKeeps(Next(s, Number(schedule[0]), limit), schedule[1..], limit);
    }
  }

  // ---------------------------------------------------------------- main results

  /**
   For any interleaving and any limit: the counter never passes the limit, no increment is lost, and a core
   that is done has stored its exact share, the even core ceil(N/2) and the odd core floor(N/2).
   */
  lemma NoIncrementLost(s: State, schedule: seq<bool>, limit: nat)
    requires Initial(s)
    ensures var t := Run(s, schedule, limit);
      && 0 <= t.shared.counter <= limit
      && (forall p | 0 <= p < 2 && t.shared.done[p] == 1 ::
            t.shared.counter == limit && t.shared.increments[p] == if p == 0 then (limit + 1) / 2 else limit / 2)
      && (t.shared.done == [1, 1] ==> t.shared.increments[0] + t.shared.increments[1] == t.shared.counter == limit)
  {
    RunKeeps(s, schedule, limit);
  }

  // ---------------------------------------------------------------- nobody waits for ever

  /** The core whose turn it is: the one with the counter's parity, or, at the limit, any core not done. */
  predicate Turn(s: State, p: nat, limit: nat)
    requires Shaped(s) && p < 2
  {
    if s.shared.counter < limit then s.shared.counter % 2 == p else s.core[p].pc < HALT
  }

  /** How many instructions the core whose turn it is still needs until it stores, or is done. */
  function Distance(s: State, p: nat, limit: nat): (d: nat)
    requires Shaped(s) && p < 2
    ensures d <= 40
  {
    CoreDistance(s.core[p], s.shared.counter)
  }

  function CoreDistance(c: Core, counter: int): (d: nat)
    ensures d <= 40
  {
    if c.pc < 2 then 30 - c.pc
    else if c.pc == 2 then 20
    // a value loaded before the last store sends the core round the loop once more
    else if c.pc <= 9 && c.r3 != counter then 40 - c.pc
    else if c.pc == 11 || c.pc == 12 then 40 - c.pc
    else if c.pc >= 13 then 16 - (if c.pc < 16 then c.pc else 16)
    else 22 - c.pc
  }

  /** On its own instruction the core whose turn it is gets nearer. */
  lemma OwnTurn(s: State, p: nat, limit: nat)
    requires Inv(s, limit) && p < 2 && Turn(s, p, limit)
    ensures var t := Next(s, p, limit);
      || t.shared.counter == s.shared.counter + 1
      || (t.shared.counter == s.shared.counter && Distance(t, p, limit) < Distance(s, p, limit))
  {
    hide CoreOk, Execute, Share, Distance;
    var c := s.core[p];
    if 2 < c.pc < 10 && c.r3 != s.shared.counter {
      StaleTurn(c, s.shared, p, limit);
    } else if c.pc < 10 {
      FreshTurn(c, s.shared, p, limit);
    } else {
      StoreTurn(c, s.shared, p, limit);
    }
    NextDistance(s, p, limit);
  }

  lemma NextDistance(s: State, p: nat, limit: nat)
    requires Shaped(s) && p < 2
    ensures var (c, m) := Execute(s.core[p], s.shared, p, limit);
      Distance(Next(s, p, limit), p, limit) == CoreDistance(c, m.counter) && Next(s, p, limit).shared == m
    ensures Distance(s, p, limit) == CoreDistance(s.core[p], s.shared.counter)
  {
    hide Execute;
  }

  /** A core that loaded before the last store goes round once more. */
  lemma StaleTurn(c: Core, m: Shared, p: nat, limit: nat)
    requires p < 2 && |m.increments| == 2 && |m.done| == 2 && 0 <= m.counter <= limit
    requires CoreOk(c, m, p, limit) && 2 < c.pc < 10 && c.r3 != m.counter
    ensures var (c', m') := Execute(c, m, p, limit);
      m'.counter == m.counter && CoreDistance(c', m.counter) < CoreDistance(c, m.counter)
  {
    hide Share;
  }

  lemma FreshTurn(c: Core, m: Shared, p: nat, limit: nat)
    requires p < 2 && |m.increments| == 2 && |m.done| == 2 && 0 <= m.counter <= limit
    requires CoreOk(c, m, p, limit) && c.pc < 10 && (2 < c.pc ==> c.r3 == m.counter)
    requires m.counter < limit ==> m.counter % 2 == p
    ensures var (c', m') := Execute(c, m, p, limit);
      m'.counter == m.counter && CoreDistance(c', m.counter) < CoreDistance(c, m.counter)
  {
    hide Share;
  }

  lemma StoreTurn(c: Core, m: Shared, p: nat, limit: nat)
    requires p < 2 && |m.increments| == 2 && |m.done| == 2 && 0 <= m.counter <= limit
    requires CoreOk(c, m, p, limit) && 10 <= c.pc && (m.counter == limit ==> c.pc < HALT)
    ensures var (c', m') := Execute(c, m, p, limit);
      || m'.counter == m.counter + 1
      || (m'.counter == m.counter && CoreDistance(c', m.counter) < CoreDistance(c, m.counter))
  {
    hide Share;
  }

  /** Away from its turn a core does not store to the counter. */
  lemma NoStore(c: Core, m: Shared, q: nat, limit: nat)
    requires q < 2 && |m.increments| == 2 && |m.done| == 2
    requires CoreOk(c, m, q, limit) && (m.counter < limit ==> m.counter % 2 != q)
    ensures Execute(c, m, q, limit).1.counter == m.counter
  {
  }

  /** An instruction of the other core does not put it off. */
  lemma OtherTurn(s: State, p: nat, limit: nat)
    requires Inv(s, limit) && p < 2 && Turn(s, p, limit)
    ensures var t := Next(s, 1 - p, limit);
      t.shared.counter == s.shared.counter && Distance(t, p, limit) == Distance(s, p, limit)
  {
    hide CoreOk, Distance, Execute;
    NoStore(s.core[1 - p], s.shared, 1 - p, limit);
    SameDistance(s, Next(s, 1 - p, limit), p, limit);
  }

  lemma SameDistance(s: State, t: State, p: nat, limit: nat)
    requires Shaped(s) && Shaped(t) && p < 2 && t.core[p] == s.core[p] && t.shared.counter == s.shared.counter
    ensures Distance(t, p, limit) == Distance(s, p, limit)
  {
  }

  /** While the program is not over, it is some core's turn. */
  lemma SomeTurn(s: State, limit: nat)
    requires Inv(s, limit) && s.shared.done != [1, 1]
    ensures Turn(s, 0, limit) || Turn(s, 1, limit)
  {
    assert s.shared.done == [s.shared.done[0], s.shared.done[1]];
  }

  /** Instructions still needed at most, when only those of the core whose turn it is count. */
  function Potential(s: State, limit: nat): nat
    requires Inv(s, limit)
  {
    if s.shared.counter < limit
    then (limit - s.shared.counter) * 41 + Distance(s, s.shared.counter % 2, limit) + 81
    else Distance(s, 0, limit) + Distance(s, 1, limit)
  }

  /** Below the limit: only the core with the counter's parity changes the potential, and it lowers it. */
  lemma BelowPotential(s: State, q: nat, limit: nat)
    requires Inv(s, limit) && q < 2 && s.shared.counter < limit && Inv(Next(s, q, limit), limit)
    ensures Turn(s, q, limit) ==> Potential(Next(s, q, limit), limit) < Potential(s, limit)
    ensures !Turn(s, q, limit) ==> Next(s, q, limit).shared.counter == s.shared.counter
                                   && Potential(Next(s, q, limit), limit) == Potential(s, limit)
  {
    hide CoreOk, Distance, Execute;
    if Turn(s, q, limit) { OwnTurn(s, q, limit); } else { OtherTurn(s, 1 - q, limit); }
  }

  /** At the limit: a core that is not done gets nearer to its end, the other one stays where it is. */
  lemma LimitPotential(s: State, q: nat, limit: nat)
    requires Inv(s, limit) && q < 2 && s.shared.counter == limit
    ensures var t := Next(s, q, limit);
      && t.shared.counter == limit && t.core[1 - q] == s.core[1 - q]
      && Distance(t, 1 - q, limit) == Distance(s, 1 - q, limit)
      && (if Turn(s, q, limit) then Distance(t, q, limit) < Distance(s, q, limit) else t.core[q] == s.core[q])
  {
    hide Distance, Share;
    NoStore(s.core[q], s.shared, q, limit);
    SameDistance(s, Next(s, q, limit), 1 - q, limit);
    if Turn(s, q, limit) { OwnTurn(s, q, limit); }
  }

  lemma StepPotential(s: State, q: nat, limit: nat)
    requires Inv(s, limit) && q < 2
    ensures Inv(Next(s, q, limit), limit)
    ensures Potential(Next(s, q, limit), limit) <= Potential(s, limit)
    ensures Turn(s, q, limit) ==> Potential(Next(s, q, limit), limit) < Potential(s, limit)
    ensures Turn(s, 1 - q, limit) ==>
              Turn(Next(s, q, limit), 1 - q, limit) || Potential(Next(s, q, limit), limit) < Potential(s, limit)
  {
    hide CoreOk, Distance, Next;
    StepKeeps(s, q, limit);
    if s.shared.counter < limit {
      BelowPotential(s, q, limit);
    } else {
      LimitPotential(s, q, limit);
      if !Turn(s, q, limit) { SameDistance(s, Next(s, q, limit), q, limit); }
    }
  }

  /** A stretch in which the core whose turn it is runs at least once brings the end nearer. */
  lemma {:induction false} StretchPotential(s: State, stretch: seq<bool>, p: nat, limit: nat)
    requires Inv(s, limit) && p < 2
    ensures Inv(Run(s, stretch, limit), limit)
    ensures Potential(Run(s, stretch, limit), limit) <= Potential(s, limit)
    ensures Turn(s, p, limit) && (p == 1) in stretch ==> Potential(Run(s, stretch, limit), limit) < Potential(s, limit)
    decreases |stretch|
  {
    hide Potential, CoreOk, Next, Turn;
    if stretch != [] {
      StepPotential(s, Number(stretch[0]), limit);
      StretchPotential(Next(s, Number(stretch[0]), limit), stretch[1..], p, limit);
      assert stretch == [stretch[0]] + stretch[1..];
    }
  }

  /** A round is a stretch of the schedule in which both cores run. */
  predicate Fair(rounds: seq<seq<bool>>) {
    forall round | round in rounds :: true in round && false in round
  }

  function RunRounds(s: State, rounds: seq<seq<bool>>, limit: nat): (s': State)
    requires Shaped(s)
    ensures Shaped(s')
    decreases |rounds|
  {
    if rounds == [] then s else RunRounds(Run(s, rounds[0], limit), rounds[1..], limit)
  }

  lemma {:induction false} RoundsFinish(s: State, rounds: seq<seq<bool>>, limit: nat)
    requires Inv(s, limit) && Fair(rounds)
    ensures Inv(RunRounds(s, rounds, limit), limit)
    ensures |rounds| > Potential(s, limit) ==> RunRounds(s, rounds, limit).shared.done == [1, 1]
    ensures s.shared.done == [1, 1] ==> RunRounds(s, rounds, limit).shared.done == [1, 1]
    decreases |rounds|
  {
    hide Potential, CoreOk, Next, Run;
    if rounds != [] {
      var t := Run(s, rounds[0], limit);
      if s.shared.done == [1, 1] {
        HaltedStays(s, rounds[0], limit);
      } else {
        SomeTurn(s, limit);
        var p := if Turn(s, 0, limit) then 0 else 1;
        StretchPotential(s, rounds[0], p, limit);
      }
      RunKeeps(s, rounds[0], limit);
      RoundsFinish(t, rounds[1..], limit);
    }
  }

  lemma {:induction false} HaltedStays(s: State, schedule: seq<bool>, limit: nat)
    requires Inv(s, limit) && s.shared.done == [1, 1]
    ensures Run(s, schedule, limit) == s
    decreases |schedule|
  {
    if schedule != [] {
      var q := Number(schedule[0]);
      assert s.core[q].pc == HALT;
      assert s.core[q := s.core[q]] == s.core;
      assert Next(s, q, limit) == s;
      HaltedStays(s, schedule[1..], limit);
    }
  }

  lemma PotentialBound(s: State, limit: nat)
    requires Inv(s, limit)
    ensures Potential(s, limit) <= 41 * limit + 121
  {
  }

  /**
   Both cores finish: however unevenly the instructions are interleaved, after 41 N + 122 rounds in which
   each core runs at least once the counter stands at N and both cores have stored their shares.
   */
  lemma BothFinish(s: State, rounds: seq<seq<bool>>, limit: nat)
    requires Initial(s) && Fair(rounds) && |rounds| >= 41 * limit + 122
    ensures var t := RunRounds(s, rounds, limit);
      t.shared == Shared(limit, [(limit + 1) / 2, limit / 2], [1, 1])
  {
    PotentialBound(s, limit);
    RoundsFinish(s, rounds, limit);
    var t := RunRounds(s, rounds, limit);
    assert t.shared.increments == [t.shared.increments[0], t.shared.increments[1]];
  }
}
