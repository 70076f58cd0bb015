/**
 * The exact clock at which every task starts, decided before `After`. A task that misses its turn waits a
 * revolution. Any other starts in its due sweep, with one exception: when it comes down from an overflow
 * level one tick before that sweep, less than a tick away, it starts there and then.
 */
module TimeWheelExact {
  import opened Arith
  import opened TimeWheel
  import opened TimeWheelSafety
  import opened TimeWheelRoot
  import opened TimeWheelCascade
  import opened TimeWheelPunctual
  import opened TimeWheelHandDown

  /** The tick the root shows. */
  function Shown(ls: Levels): int
    requires |ls| > 0 && ls[0].tick > 0
  {
    TickOf(ls[0].current, ls[0])
  }

  /** One tick before its due sweep e is less than a tick away, and the overflow level turns there. */
  predicate Drops(size: nat, ls: Levels, e: Entry)
    requires size > 0 && |ls| > 0 && ls[0].tick > 0
  {
    e.expire % ls[0].tick < Phase(ls) && (TickOf(e.expire, ls[0]) - 1) % size == 0
  }

  /** The task lands above the root, and drops from there one tick before its due sweep. */
  predicate ComesDownEarly(size: nat, ls: Levels, e: Entry)
    requires size > 0 && |ls| > 0 && ls[0].tick > 0
  {
    e.expire - ls[0].current >= Span(ls[0], size) && Drops(size, ls, e)
  }

  /** The root's clock in the sweep that starts e, decided before `After`. */
  function StartClock(size: nat, ls: Levels, e: Entry): int
    requires size >= 2 && |ls| > 0 && AllShaped(size, ls)
  {
    var o := Phase(ls);
    if MissesTurn(size, ls, e) then NextTurn(size, Landing(size, ls, 0, e), o, e)
    else if ComesDownEarly(size, ls, e) then Due(ls[0], o, e) - ls[0].tick
    else Due(ls[0], o, e)
  }

  // ---- Clocks ----

  /** The clock reads n ticks and the phase. */
  lemma ClockTicks(size: nat, ls: Levels)
    requires Timed(size, ls)
    ensures ls[0].current == TickOf(ls[0].current, ls[0]) * ls[0].tick + Phase(ls)
  {
    DivMod(ls[0].current, ls[0].tick);
  }

  /** Two multiples of a span are a span apart. */
  lemma SpanApart(m: int, n: int, t: int, size: nat)
    requires t > 0 && size > 0 && m % size == 0 && n % size == 0 && m < n
    ensures m * t + t * size <= n * t
  {
    DivMod(m, size);
    DivMod(n, size);
    if m / size >= n / size { MulMono(n / size, m / size, size); }
    MulMono(m / size + 1, n / size, size);
    assert (m / size + 1) * size == (m / size) * size + size;
    MulMono(m + size, n, t);
    assert (m + size) * t == m * t + t * size;
  }

  // ---- Early: the task stays above the root, and starts when it comes down ----

  ghost predicate NotInRoot(size: nat, ls: Levels, e: Entry)
    requires |ls| > 0 && AllShaped(size, ls)
  {
    forall i | 0 <= i < size :: e !in ls[0].slots[i]
  }

  lemma {:induction false} InsertNotInRoot(size: nat, ls: Levels, k: nat, f: Entry, e: Entry)
    requires Valid(size, ls) && k < |ls| && NotInRoot(size, ls, e)
    requires f != e || k > 0 || e.expire - ls[0].current < ls[0].tick || e.expire - ls[0].current >= Span(ls[0], size)
    ensures var p := InsertAt(size, ls, k, f); Valid(size, p.levels) && NotInRoot(size, p.levels, e)
    decreases |ls| - k, Slack(ls[k], f)
  {
    InsertKeeps(size, ls, k, f);
    var remaining := f.expire - ls[k].current;
    if remaining < ls[k].tick || remaining < Span(ls[k], size) {
    } else {
      NewLevelShape(ls[k], size);
      OverflowKeeps(size, ls, k);
      InsertNotInRoot(size, WithOverflow(size, ls, k), k + 1, f, e);
    }
  }

  lemma {:induction false} DrainNotInRoot(size: nat, ls: Levels, es: seq<Entry>, now: int, e: Entry)
    requires Valid(size, ls) && ls[0].current == now && NotInRoot(size, ls, e)
    requires e.expire - now < ls[0].tick || e.expire - now >= Span(ls[0], size)
    ensures var ms := Drain(size, ls, es, now).levels;
      Valid(size, ms) && NotInRoot(size, ms, e) && ms[0].current == now && ms[0].tick == ls[0].tick
    decreases |es|
  {
    if es == [] {
    } else {
      if es[0].expire <= now {
        DrainNotInRoot(size, ls, es[1..], now, e);
      } else {
        InsertNotInRoot(size, ls, 0, es[0], e);
        InsertClocks(size, ls, 0, es[0]);
        DrainNotInRoot(size, InsertAt(size, ls, 0, es[0]).levels, es[1..], now, e);
      }
    }
  }

  lemma {:induction false} OverflowNotInRoot(size: nat, ls: Levels, k: nat, now: int, e: Entry)
    requires Valid(size, ls) && 0 < k < |ls| && CaughtUp(ls, k, now) && NotInRoot(size, ls, e)
    requires e.expire - now < ls[0].tick || e.expire - now >= Span(ls[0], size)
    ensures var ms := AdvanceAt(size, ls, k, now).levels; Valid(size, ms) && NotInRoot(size, ms, e)
    decreases |ls| - k
  {
    AdvanceKeeps(size, ls, k, now);
    if now - ls[k].current < ls[k].tick {
    } else {
      var ms := Own(size, ls, k, now);
      DrainFitsHere(size, ls, k, now);
      DrainNotInRoot(size, Turned(size, ls, k, now), ls[k].slots[SlotIndex(now, ls[k].tick, size)], now, e);
      AdvanceIsOwn(size, ls, k, now);
      if Carries(size, ls, k, now) {
        OverflowNotInRoot(size, ms, k + 1, now, e);
      }
    }
  }

  /** The root's own sweep puts nothing back. */
  lemma RootSweepNotInRoot(size: nat, ls: Levels, now: int, e: Entry)
    requires Timed(size, ls) && now == ls[0].current + ls[0].tick && NotInRoot(size, ls, e)
    ensures var ms := Own(size, ls, 0, now);
      Valid(size, ms) && NotInRoot(size, ms, e) && ms[0].tick == ls[0].tick && ms[0].current == now
  {
    TurnedTimely(size, ls, 0, Phase(ls), now) by { NextClock(size, ls, now); }
    DrainFitsHere(size, ls, 0, now);
    DrainAllStarted(size, Turned(size, ls, 0, now), ls[0].slots[SlotIndex(now, ls[0].tick, size)], now);
  }

  /** The root turns: what comes down does not go into the root, unless a carry brings e within its range. */
  lemma TickNotInRoot(size: nat, ls: Levels, now: int, e: Entry)
    requires Timed(size, ls) && now == ls[0].current + ls[0].tick && NotInRoot(size, ls, e)
    requires Carries(size, ls, 0, now) ==> e.expire - now < ls[0].tick || e.expire - now >= Span(ls[0], size)
    ensures var ms := AdvanceAt(size, ls, 0, now).levels; Valid(size, ms) && NotInRoot(size, ms, e)
  {
    RootSweepNotInRoot(size, ls, now, e);
    AdvanceIsOwn(size, ls, 0, now);
    if Carries(size, ls, 0, now) {
      OverflowNotInRoot(size, Own(size, ls, 0, now), 1, now, e);
    }
  }

  /** Carries at tick m no later than d - 1, both starts of a turn: less than a tick to x, or a turn and more. */
  lemma CarryApart(m: int, d: int, t: int, size: nat, o: int, x: int)
    requires t > 0 && size > 0 && m % size == 0 && (d - 1) % size == 0 && m <= d - 1
    requires d * t <= x < d * t + o && o < t
    ensures x - (m * t + o) < t || x - (m * t + o) >= t * size
  {
    assert (d - 1) * t == d * t - t;
    if m < d - 1 { SpanApart(m, d - 1, t, size); }
  }

  /** The ticks before the exception's clock, and the one that reaches it. */
  lemma CarryClock(size: nat, ls: Levels, now: int, e: Entry)
    requires Timed(size, ls) && now == ls[0].current + ls[0].tick && Drops(size, ls, e)
    requires Shown(ls) < TickOf(e.expire, ls[0]) - 1
    ensures Carries(size, ls, 0, now) ==> e.expire - now < ls[0].tick || e.expire - now >= Span(ls[0], size)
  {
    NextClock(size, ls, now);
    SlotIs(now, ls[0], size);
    DivMod(now, ls[0].tick);
    DivMod(e.expire, ls[0].tick);
    if TickOf(now, ls[0]) % size == 0 {
      CarryApart(TickOf(now, ls[0]), TickOf(e.expire, ls[0]), ls[0].tick, size, Phase(ls), e.expire);
    }
  }

  /** A prompt entry above the root is in a turn that begins at its own tick or before. */
  lemma TurnBeginsAtTick(size: nat, ls: Levels, k: nat, e: Entry)
    requires Timed(size, ls) && 0 < k < |ls| && Prompt(ls[k], Phase(ls), e)
    requires TickOf(ls[0].current, ls[0]) == TickOf(e.expire, ls[0]) - 1
    ensures TickOf(e.expire, ls[0]) % size == 0
  {
    var t, d := ls[0].tick, TickOf(e.expire, ls[0]);
    var x := TickOf(e.expire, ls[k]) * ls[k].tick;
    PromptTurnAhead(size, ls, k, e);
    ClockTicks(size, ls);
    MulMod(TickOf(e.expire, ls[k]), ls[k].tick);
    OnGrid(size, ls, k, 1, x);
    OnGrid(size, ls, k, 0, x);
    assert Linked(ls[0], ls[1], size);
    NestedDiv(x, t, size);
    DivMod(x, t);
    DivBounds(e.expire, t);
    if x / t <= d - 1 { MulMono(x / t, d - 1, t); }
    if x / t >= d + 1 { MulMono(d + 1, x / t, t); }
  }

  // ---- A task given once, along a run ----

  /** The rest of a run in which e has been given exactly once and is not stuck. */
  ghost predicate Single(size: nat, s: State, ops: seq<Op>, e: Entry) {
    && Timed(size, s.levels) && OneTick(size, s, ops) && Conserved(s) && NoneEarly(s.started, s.levels[0])
    && !StuckHeld(size, s.levels, Phase(s.levels), e) && !Missed(size, s, ops, e)
    && s.given[e] == 1 && s.atOnce[e] == 0 && Run(size, s, ops).given[e] == 1
  }

  /** The root keeps its tick and its phase, and shows the clock of a tick. */
  predicate Moves(ls: Levels, ms: Levels, op: Op)
    requires |ls| > 0 && ls[0].tick > 0
  {
    && |ms| > 0 && ms[0].tick == ls[0].tick && Phase(ms) == Phase(ls)
    && ms[0].current == (if op.Tick? then op.now else ls[0].current)
    && Shown(ms) == Shown(ls) + (if op.Tick? then 1 else 0)
  }

  lemma SingleStep(size: nat, s: State, ops: seq<Op>, e: Entry)
    requires Single(size, s, ops, e) && ops != []
    ensures Single(size, Step(size, s, ops[0]), ops[1..], e)
    ensures ops[0].After? ==> Task(ops[0]) != e
    ensures ops[0].Tick? ==> ops[0].now == s.levels[0].current + s.levels[0].tick
    ensures Step(size, s, ops[0]).started[e] >= s.started[e]
    ensures Moves(s.levels, Step(size, s, ops[0]).levels, ops[0])
  {
    var t := Step(size, s, ops[0]);
    StepTimed(size, s, ops[0]);
    StepConserves(size, s, ops[0]);
    StepNotEarly(size, s, ops[0]);
    RunGiven(size, t, ops[1..], e);
    forall j: nat ensures !StuckAt(size, t.levels, j, Phase(s.levels), e) {
      assert !PutToMiss(size, s, ops[0], e);
    }
    if ops[0].Tick? { NextClock(size, s.levels, ops[0].now); }
  }

  lemma {:induction false} StartedStays(size: nat, s: State, ops: seq<Op>, e: Entry)
    requires Single(size, s, ops, e)
    ensures s.started[e] == 1 ==> Run(size, s, ops).started[e] == 1
    ensures Run(size, s, ops).started[e] <= 1
    decreases |ops|
  {
    if ops == [] {
    } else {
      SingleStep(size, s, ops, e);
      StartedStays(size, Step(size, s, ops[0]), ops[1..], e);
    }
  }

  /** At the exception's clock nothing holds the task any more. */
  lemma EarlyStarted(size: nat, s: State, ops: seq<Op>, e: Entry)
    requires Single(size, s, ops, e) && NotInRoot(size, s.levels, e)
    requires Drops(size, s.levels, e) && Shown(s.levels) == TickOf(e.expire, s.levels[0]) - 1
    ensures s.started[e] == 1
  {
    if Held(s.levels, e) > 0 {
      var k, i := HeldSomewhere(size, s.levels, e);
      assert Timely(s.levels[k], size, Phase(s.levels));
      assert Stuck(s.levels[k], size, Phase(s.levels), e) ==> StuckAt(size, s.levels, k, Phase(s.levels), e);
      TurnBeginsAtTick(size, s.levels, k, e);
      SameResidue(TickOf(e.expire, s.levels[0]), TickOf(e.expire, s.levels[0]) - 1, size);
    }
  }

  /** A step before the exception's clock, or the one that reaches it, keeps e above the root. */
  lemma EarlyStep(size: nat, s: State, op: Op, e: Entry)
    requires Timed(size, s.levels) && NotInRoot(size, s.levels, e) && Drops(size, s.levels, e)
    requires Shown(s.levels) < TickOf(e.expire, s.levels[0]) - 1
    requires if op.Tick? then op.now == s.levels[0].current + s.levels[0].tick else Task(op) != e
    ensures var t := Step(size, s, op); Valid(size, t.levels) && NotInRoot(size, t.levels, e)
  {
    if op.Tick? {
      CarryClock(size, s.levels, op.now, e);
      TickNotInRoot(size, s.levels, op.now, e);
    } else if op.delay > 0 {
      InsertNotInRoot(size, s.levels, 0, Task(op), e);
    }
  }

  lemma DropsMoves(size: nat, ls: Levels, ms: Levels, op: Op, e: Entry)
    requires size > 0 && |ls| > 0 && ls[0].tick > 0 && Moves(ls, ms, op) && Drops(size, ls, e)
    ensures Drops(size, ms, e) && TickOf(e.expire, ms[0]) == TickOf(e.expire, ls[0])
  {
  }

  lemma {:induction false} RunEarly(size: nat, s: State, ops: seq<Op>, e: Entry)
    requires Single(size, s, ops, e) && NotInRoot(size, s.levels, e) && Drops(size, s.levels, e)
    requires Shown(s.levels) <= TickOf(e.expire, s.levels[0]) - 1
    ensures var t := Run(size, s, ops);
      && Timed(size, t.levels) && t.levels[0].tick == s.levels[0].tick
      && (Shown(t.levels) >= TickOf(e.expire, s.levels[0]) - 1 ==> t.started[e] == 1)
    decreases |ops|
  {
    if Shown(s.levels) == TickOf(e.expire, s.levels[0]) - 1 {
      EarlyStarted(size, s, ops, e);
      StartedStays(size, s, ops, e);
      RunKeepsTimed(size, s, ops);
    } else if ops != [] {
      SingleStep(size, s, ops, e);
      EarlyStep(size, s, ops[0], e);
      DropsMoves(size, s.levels, Step(size, s, ops[0]).levels, ops[0], e);
      RunEarly(size, Step(size, s, ops[0]), ops[1..], e);
    }
  }

  // ---- Otherwise: the tick before the due sweep does not start it ----

  lemma TickNoStart(size: nat, ls: Levels, now: int, e: Entry)
    requires Timed(size, ls) && now == ls[0].current + ls[0].tick && e.expire >= 0
    requires TickOf(e.expire, ls[0]) == TickOf(now, ls[0]) + 1 && TickOf(now, ls[0]) % size != 0
    ensures AdvanceAt(size, ls, 0, now).started[e] == 0
  {
    NextClock(size, ls, now);
    SlotIs(now, ls[0], size);
    SlotIs(e.expire, ls[0], size);
    DrainFitsHere(size, ls, 0, now);
    StartedByBound(size, ls, 0, now, e);
    var es := ls[0].slots[SlotIndex(now, ls[0].tick, size)];
    assert Housed(ls[0], size);
    NotSameSlot(TickOf(now, ls[0]), size);
    assert e !in es;
  }

  lemma NotSameSlot(m: int, size: nat)
    requires size >= 2
    ensures (m + 1) % size != m % size
  {
    if (m + 1) % size == m % size { SameResidue(m + 1, m, size); }
  }

  /** Two ticks apart is more than one tick of time. */
  lemma TickFar(l: Level, now: int, e: Entry)
    requires l.tick > 0 && TickOf(now, l) <= TickOf(e.expire, l) - 2
    ensures e.expire - now >= l.tick
  {
    DivBounds(now, l.tick);
    DivBounds(e.expire, l.tick);
    MulMono(TickOf(now, l) + 2, TickOf(e.expire, l), l.tick);
    assert (TickOf(now, l) + 2) * l.tick == (TickOf(now, l) + 1) * l.tick + l.tick;
  }

  /** e does not drop, and is not started while the root shows less than its due tick d. */
  ghost predicate Waits(size: nat, s: State, ops: seq<Op>, e: Entry, d: int) {
    && Single(size, s, ops, e) && e.expire >= 0 && d == TickOf(e.expire, s.levels[0]) && (d - 1) % size != 0
    && (Shown(s.levels) < d ==> s.started[e] == 0)
  }

  lemma FarNotStarted(started: multiset<Entry>, root: Level, e: Entry)
    requires NoneEarly(started, root) && root.tick > 0 && TickOf(root.current, root) <= TickOf(e.expire, root) - 2
    ensures started[e] == 0
  {
    TickFar(root, root.current, e);
  }

  /** A tick that shows less than the due tick starts nothing of e. */
  lemma NotEarlyTick(size: nat, s: State, ops: seq<Op>, e: Entry, d: int)
    requires Waits(size, s, ops, e, d) && ops != [] && ops[0].Tick? && Shown(s.levels) + 1 < d
    ensures Step(size, s, ops[0]).started[e] == 0
  {
    var t := Step(size, s, ops[0]);
    SingleStep(size, s, ops, e);
    if Shown(t.levels) == d - 1 {
      TickNoStart(size, s.levels, ops[0].now, e);
    } else {
      FarNotStarted(t.started, t.levels[0], e);
    }
  }

  /** `After` of another task starts nothing of e. */
  lemma OtherStarted(size: nat, s: State, op: Op, e: Entry)
    requires Timed(size, s.levels) && op.After? && Task(op) != e
    ensures Step(size, s, op).started[e] == s.started[e]
  {
    if op.delay > 0 { InsertStartedIff(size, s.levels, Task(op)); }
  }

  lemma WaitsStep(size: nat, s: State, ops: seq<Op>, e: Entry, d: int)
    requires Waits(size, s, ops, e, d) && ops != []
    ensures Waits(size, Step(size, s, ops[0]), ops[1..], e, d)
  {
    SingleStep(size, s, ops, e);
    if ops[0].After? {
      OtherStarted(size, s, ops[0], e);
    } else if Shown(s.levels) + 1 < d {
      NotEarlyTick(size, s, ops, e, d);
    }
  }

  lemma {:induction false} RunNotEarly(size: nat, s: State, ops: seq<Op>, e: Entry, d: int)
    requires Waits(size, s, ops, e, d)
    ensures Waits(size, Run(size, s, ops), [], e, d)
    decreases |ops|
  {
    if ops == [] {
    } else {
      WaitsStep(size, s, ops, e, d);
      RunNotEarly(size, Step(size, s, ops[0]), ops[1..], e, d);
    }
  }

  // ---- The theorem ----

  lemma OnceIsSingle(size: nat, s: State, op: Op, ops: seq<Op>)
    requires GivenOnce(size, s, op, ops) && !MissesTurn(size, s.levels, Task(op))
    ensures Single(size, Step(size, s, op), ops, Task(op))
    ensures s.started[Task(op)] == 0
  {
    var e, t := Task(op), Step(size, s, op);
    OnceFacts(size, s, op, ops);
    StepTimed(size, s, op);
    forall j: nat ensures !StuckAt(size, t.levels, j, Phase(s.levels), e) {
      assert !PutToMiss(size, s, op, e);
    }
  }

  lemma HeldInRoot(size: nat, ls: Levels, e: Entry)
    requires |ls| > 0 && AllShaped(size, ls)
    ensures Held(ls, e) == 0 ==> NotInRoot(size, ls, e)
  {
    if i: nat :| i < size && e in ls[0].slots[i] { InLevels(ls, 0, i, e); }
  }

  lemma TwoTicksAway(root: Level, o: int, e: Entry)
    requires root.tick > 0 && o == root.current % root.tick && e.expire - root.current >= 2 * root.tick
    requires e.expire % root.tick < o
    ensures TickOf(root.current, root) < TickOf(e.expire, root) - 1
  {
    DivMod(root.current, root.tick);
    DivMod(e.expire, root.tick);
    var c, d, t := TickOf(root.current, root), TickOf(e.expire, root), root.tick;
    assert (d - 1) * t == d * t - t;
    assert c >= d - 1 ==> c * t >= (d - 1) * t by {
      if c >= d - 1 { MulMono(d - 1, c, t); }
    }
  }

  /** The task lands above the root, and its remainder falls short of the phase. */
  ghost predicate Lands(size: nat, s: State, op: Op, ops: seq<Op>) {
    && GivenOnce(size, s, op, ops) && !MissesTurn(size, s.levels, Task(op))
    && Task(op).expire - s.levels[0].current >= Span(s.levels[0], size)
    && Task(op).expire % s.levels[0].tick < Phase(s.levels)
  }

  /** A task above the root is not started by `After`. */
  lemma StartedAbove(size: nat, s: State, op: Op)
    requires Timed(size, s.levels) && op.After? && op.delay > 0
    requires Task(op).expire - s.levels[0].current >= s.levels[0].tick
    ensures Step(size, s, op).started == s.started
  {
    InsertStartedIff(size, s.levels, Task(op));
  }

  lemma RootMoves(size: nat, s: State, op: Op)
    requires Timed(size, s.levels) && op.After?
    ensures Moves(s.levels, Step(size, s, op).levels, op)
  {
    StepTimed(size, s, op);
  }

  /** A task above the root whose remainder falls short of the phase is two ticks and more away. */
  lemma AboveFar(size: nat, ls: Levels, e: Entry)
    requires Timed(size, ls) && e.expire - ls[0].current >= Span(ls[0], size) && e.expire % ls[0].tick < Phase(ls)
    ensures Shown(ls) < TickOf(e.expire, ls[0]) - 1 && e.expire >= 0 && e.expire - ls[0].current >= ls[0].tick
  {
    MulMono(2, size, ls[0].tick);
    TwoTicksAway(ls[0], Phase(ls), e);
  }

  lemma LandsAbove(size: nat, s: State, op: Op, ops: seq<Op>)
    requires Lands(size, s, op, ops)
    ensures Single(size, Step(size, s, op), ops, Task(op)) && Step(size, s, op).started[Task(op)] == 0
    ensures Moves(s.levels, Step(size, s, op).levels, op) && Task(op).expire >= 0
    ensures Shown(s.levels) < TickOf(Task(op).expire, s.levels[0]) - 1
  {
    OnceIsSingle(size, s, op, ops);
    RootMoves(size, s, op);
    AboveFar(size, s.levels, Task(op));
    StartedAbove(size, s, op);
  }

  /** The task comes down one tick before its due sweep, and starts. */
  lemma StartsEarly(size: nat, s: State, op: Op, ops: seq<Op>)
    requires Lands(size, s, op, ops) && Drops(size, s.levels, Task(op))
    ensures var t := Run(size, Step(size, s, op), ops);
      && Timed(size, t.levels) && t.levels[0].tick == s.levels[0].tick
      && (Shown(t.levels) >= TickOf(Task(op).expire, s.levels[0]) - 1 ==> t.started[Task(op)] == 1)
  {
    var e, t := Task(op), Step(size, s, op);
    LandsAbove(size, s, op, ops);
    HeldInRoot(size, s.levels, e);
    InsertNotInRoot(size, s.levels, 0, e, e);
    DropsMoves(size, s.levels, t.levels, op, e);
    RunEarly(size, t, ops, e);
  }

  /** It does not drop: not started before the due sweep. */
  lemma StartsNotEarly(size: nat, s: State, op: Op, ops: seq<Op>)
    requires Lands(size, s, op, ops) && !Drops(size, s.levels, Task(op))
    ensures var t := Run(size, Step(size, s, op), ops);
      && Timed(size, t.levels) && t.levels[0].tick == s.levels[0].tick
      && (Shown(t.levels) < TickOf(Task(op).expire, s.levels[0]) ==> t.started[Task(op)] == 0)
  {
    var d := TickOf(Task(op).expire, s.levels[0]);
    LandsAbove(size, s, op, ops);
    assert Waits(size, Step(size, s, op), ops, Task(op), d);
    RunNotEarly(size, Step(size, s, op), ops, Task(op), d);
    RunKeepsTimed(size, Step(size, s, op), ops);
  }

  /** The clock of a run's end and the tick it shows. */
  lemma EndClock(size: nat, s: State, op: Op, ops: seq<Op>, d: int)
    requires GivenOnce(size, s, op, ops)
    ensures var t, root, o := Run(size, Step(size, s, op), ops), s.levels[0], Phase(s.levels);
      && |t.levels| > 0 && t.levels[0].tick == root.tick
      && (t.levels[0].current >= d * root.tick + o <==> Shown(t.levels) >= d)
  {
    OnceFacts(size, s, op, ops);
    StepTimed(size, s, op);
    RunKeepsTimed(size, Step(size, s, op), ops);
    var t := Run(size, Step(size, s, op), ops);
    ClockTicks(size, t.levels);
    ReachedClock(t.levels[0], Phase(s.levels), d);
  }

  lemma ReachedClock(root: Level, o: int, d: int)
    requires root.tick > 0 && root.current == TickOf(root.current, root) * root.tick + o
    ensures root.current >= d * root.tick + o <==> TickOf(root.current, root) >= d
  {
    var c := TickOf(root.current, root);
    if c >= d {
      MulMono(d, c, root.tick);
    } else {
      MulMono(c + 1, d, root.tick);
      assert (c + 1) * root.tick == c * root.tick + root.tick;
    }
  }

  /** Lands above the root with a smaller remainder: started exactly from `StartClock` on. */
  lemma AboveStartsAt(size: nat, s: State, op: Op, ops: seq<Op>)
    requires Lands(size, s, op, ops)
    ensures var t := Run(size, Step(size, s, op), ops);
      && |t.levels| > 0
      && (t.started[Task(op)] == 1 <==> t.levels[0].current >= StartClock(size, s.levels, Task(op)))
  {
    var e, ls := Task(op), s.levels;
    var t, d := Run(size, Step(size, s, op), ops), TickOf(e.expire, ls[0]);
    OnTimeStartsAt(size, s, op, ops);
    EndClock(size, s, op, ops, d);
    EndClock(size, s, op, ops, d - 1);
    assert (d - 1) * ls[0].tick == d * ls[0].tick - ls[0].tick;
    if Drops(size, ls, e) {
      StartsEarly(size, s, op, ops);
      if Shown(t.levels) < d - 1 { TickFar(ls[0], t.levels[0].current, e); }
    } else {
      StartsNotEarly(size, s, op, ops);
    }
  }

  /** Less than a tick away: started at once, for good. */
  lemma AtOnceStays(size: nat, s: State, op: Op, ops: seq<Op>)
    requires GivenOnce(size, s, op, ops) && Task(op).expire - s.levels[0].current < s.levels[0].tick
    ensures Run(size, Step(size, s, op), ops).started[Task(op)] == 1
  {
    OnceIsSingle(size, s, op, ops);
    InsertStartedIff(size, s.levels, Task(op));
    StartedStays(size, Step(size, s, op), ops, Task(op));
  }

  /** It fits the root, or its remainder is no smaller than the phase: started exactly from the due sweep on. */
  lemma DueStartsAt(size: nat, s: State, op: Op, ops: seq<Op>)
    requires GivenOnce(size, s, op, ops) && RootAhead(size, s.levels) && !MissesTurn(size, s.levels, Task(op))
    requires Task(op).expire - s.levels[0].current >= s.levels[0].tick && !Lands(size, s, op, ops)
    ensures var t := Run(size, Step(size, s, op), ops);
      && |t.levels| > 0
      && (t.started[Task(op)] == 1 <==> t.levels[0].current >= Due(s.levels[0], Phase(s.levels), Task(op)))
  {
    if Task(op).expire - s.levels[0].current < Span(s.levels[0], size) {
      RootStartsAt(size, s, op, ops);
    } else {
      OnTimeStartsAt(size, s, op, ops);
    }
  }

  /**
   * Exactly when a task starts, for every start of the wheel and every delay: at once if it is less than a
   * tick away; otherwise in the sweep at `StartClock` and not before.
   */
  lemma StartsExactlyAt(size: nat, s: State, op: Op, ops: seq<Op>)
    requires GivenOnce(size, s, op, ops) && RootAhead(size, s.levels)
    ensures var e, t := Task(op), Run(size, Step(size, s, op), ops);
      && |t.levels| > 0
      && (t.started[e] == 1 <==>
            || e.expire - s.levels[0].current < s.levels[0].tick
            || t.levels[0].current >= StartClock(size, s.levels, e))
  {
    if MissesTurn(size, s.levels, Task(op)) {
      MissedStartsAt(size, s, op, ops);
    } else if Task(op).expire - s.levels[0].current < s.levels[0].tick {
      OnTimeStartsAt(size, s, op, ops);
      AtOnceStays(size, s, op, ops);
    } else if Lands(size, s, op, ops) {
      AboveStartsAt(size, s, op, ops);
    } else {
      DueStartsAt(size, s, op, ops);
    }
  }

  /** A wheel that `Start` built, after the operations `before`. */
  function FromStart(tick: int, size: nat, start: int, before: seq<Op>): (s: State)
    requires tick > 0 && size >= 2
    ensures Valid(size, s.levels)
  {
    InitConserved(tick, size, start);
    RunConserves(size, Init(tick, size, start), before);
    Run(size, Init(tick, size, start), before)
  }

  /** The same for a wheel that `Start` built at any instant and that has run for any time since. */
  lemma StartsExactlyFromStart(tick: int, size: nat, start: int, before: seq<Op>, op: Op, ops: seq<Op>)
    requires tick > 0 && size >= 2 && IsPow2Uint32(size) && start >= 0
    requires (InitConserved(tick, size, start); OneTick(size, Init(tick, size, start), before))
    requires OnlyOnce(size, FromStart(tick, size, start, before), op, ops)
    ensures var s := FromStart(tick, size, start, before);
      var e, t := Task(op), (StepKeeps(size, s, op); Run(size, Step(size, s, op), ops));
      && |t.levels| > 0
      && (t.started[e] == 1 <==>
            || e.expire - s.levels[0].current < s.levels[0].tick
            || t.levels[0].current >= StartClock(size, s.levels, e))
  {
    var s := Init(tick, size, start);
    FreshTimed(tick, size, start);
    RunKeepsTimed(size, s, before);
    RunConserves(size, s, before);
    NeverEarly(size, s, before);
    OneTickConsecutive(size, s, before);
    RootTimely(size, s, before, Task(op));
    StepKeeps(size, FromStart(tick, size, start, before), op);
    StartsExactlyAt(size, Run(size, s, before), op, ops);
  }

  // ---- The promise of `After` ----

  /** No level above the root is finer than the root. */
  lemma {:induction false} LandingTick(size: nat, ls: Levels, k: nat, e: Entry)
    requires Valid(size, ls) && k < |ls|
    ensures Landing(size, ls, k, e).tick >= ls[k].tick
    decreases |ls| - k, Slack(ls[k], e)
  {
    if e.expire - ls[k].current < Span(ls[k], size) {
    } else {
      NewLevelShape(ls[k], size);
      OverflowKeeps(size, ls, k);
      var ms := WithOverflow(size, ls, k);
      assert Linked(ms[k], ms[k + 1], size);
      LandingTick(size, ms, k + 1, e);
    }
  }

  /** A missed turn comes round again a tick and more after the expire time. */
  lemma MissedIsLate(size: nat, ls: Levels, e: Entry)
    requires Timed(size, ls) && MissesTurn(size, ls, e)
    ensures StartClock(size, ls, e) > e.expire + ls[0].tick
  {
    var l := Landing(size, ls, 0, e);
    LandingTick(size, ls, 0, e);
    LateBy(size, l, Phase(ls), e);
    MulMono(1, size - 1, l.tick);
  }

  /** How far the due sweep is from the expire time. */
  lemma DueDistance(root: Level, o: int, e: Entry)
    requires root.tick > 0 && 0 <= o < root.tick
    ensures Due(root, o, e) == e.expire - e.expire % root.tick + o && 0 <= e.expire % root.tick < root.tick
  {
    DivMod(e.expire, root.tick);
  }

  /** The instant at which `After` makes e start: its own at once, or that of a sweep. */
  function StartInstant(size: nat, ls: Levels, op: Op): int
    requires size >= 2 && |ls| > 0 && AllShaped(size, ls) && op.After?
  {
    if Task(op).expire - ls[0].current < ls[0].tick then op.at else StartClock(size, ls, Task(op))
  }

  /**
   * Exactly when `After` keeps its promise of a start in [delay, delay + tick), for every start of the wheel and
   * every delay: the task is a tick away or more, misses no turn, does not come down early, and its remainder
   * does not exceed the phase.
   */
  lemma PromiseKeptIff(size: nat, ls: Levels, op: Op)
    requires Timed(size, ls) && op.After? && op.delay > 0
    ensures var e := Task(op);
      e.expire <= StartInstant(size, ls, op) < e.expire + ls[0].tick <==>
        && e.expire - ls[0].current >= ls[0].tick && !MissesTurn(size, ls, e) && !ComesDownEarly(size, ls, e)
        && e.expire % ls[0].tick <= Phase(ls)
  {
    DueDistance(ls[0], Phase(ls), Task(op));
    if MissesTurn(size, ls, Task(op)) { MissedIsLate(size, ls, Task(op)); }
  }

  /** Early or late: on which side the promise is broken. */
  lemma PromiseBroken(size: nat, ls: Levels, op: Op)
    requires Timed(size, ls) && op.After? && op.delay > 0
    ensures var e := Task(op);
      && (StartInstant(size, ls, op) >= e.expire + ls[0].tick <==> MissesTurn(size, ls, e))
      && (StartInstant(size, ls, op) < e.expire <==>
            || e.expire - ls[0].current < ls[0].tick
            || (!MissesTurn(size, ls, e) && (ComesDownEarly(size, ls, e) || e.expire % ls[0].tick > Phase(ls))))
  {
    DueDistance(ls[0], Phase(ls), Task(op));
    if MissesTurn(size, ls, Task(op)) { MissedIsLate(size, ls, Task(op)); }
  }

  /** On a wheel with tick 2 at clock 1, a task due at 2 * size + 2: it comes down at 2 * size + 1. */
  lemma EveryWheelDrops(size: nat, s: State, e: Entry)
    requires IsPow2Uint32(size) && size >= 2 && s == Init(2, size, 1) && e.expire == 2 * size + 2
    ensures Timed(size, s.levels) && Conserved(s) && NoneEarly(s.started, s.levels[0]) && RootAhead(size, s.levels)
    ensures !MissesTurn(size, s.levels, e) && StartClock(size, s.levels, e) == 2 * size + 1
  {
    FreshTimed(2, size, 1);
    ModUnique(1, 2, 0, 1);
    ModUnique(2 * size + 2, 2, size + 1, 0);
    ModUnique(size, size, 1, 0);
    var ms := WithOverflow(size, s.levels, 0);
    assert ms[1] == NewLevel(s.levels[0], size) && ms[1].tick == 2 * size && ms[1].current == 1;
    assert 2 * size + 1 < Span(ms[1], size) by { MulMono(2, size, 2 * size); }
    assert Landing(size, ms, 1, e) == ms[1];
    ModOfSmall(0, 2 * size);
  }

  /**
   * An early start for every number of slots. Tick 2, clock 1, a delay of 2 * size + 1: the task expires at
   * 2 * size + 2 and has started when the clock shows 2 * size + 1; with two slots, at 5 instead of 6.
   */
  lemma EarlyStartExample(size: nat, s: State, op: Op, n: nat)
    requires IsPow2Uint32(size) && size >= 2 && s == Init(2, size, 1) && op == After(1, 2 * size + 1, 7)
    ensures Valid(size, s.levels) && Valid(size, Step(size, s, op).levels)
    ensures Run(size, Step(size, s, op), Ticks(2, 1, n)).started[Task(op)] == 1 <==> 1 + 2 * n >= 2 * size + 1
  {
    EveryWheelDrops(size, s, Task(op));
    StepTimed(size, s, op);
    TicksRun(size, Step(size, s, op), 2, 1, n, ClockAfter(2, 1, n));
    DrivesOneTick(size, Step(size, s, op), Ticks(2, 1, n), ClockAfter(2, 1, n));
    ClockAfterIs(2, 1, n);
    assert GivenOnce(size, s, op, Ticks(2, 1, n));
    StartsExactlyAt(size, s, op, Ticks(2, 1, n));
  }
}
