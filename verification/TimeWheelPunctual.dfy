/**
 * The one-tick driver over whole runs: the wheel against a plain list of pending tasks, the exact set of
 * tasks that come late, and how late they come.
 */
module TimeWheelPunctual {
  import opened Arith
  import opened TimeWheel
  import opened TimeWheelSafety
  import opened TimeWheelRoot
  import opened TimeWheelCascade

  // ---- advance ----

  /** Nothing becomes stuck, and what is stuck stays so until its turn comes round again. */
  ghost predicate StuckKept(size: nat, ls: Levels, ms: Levels, o: int, now: int)
    requires AllShaped(size, ls) && AllShaped(size, ms)
  {
    && (forall j: nat, e :: StuckAt(size, ms, j, o, e) ==> StuckAt(size, ls, j, o, e))
    && (forall j: nat, e ::
          StuckAt(size, ls, j, o, e) && now < NextTurn(size, ls[j], o, e) ==> StuckAt(size, ms, j, o, e))
  }

  /** When the turn of e comes round on level l one revolution after it was refused. */
  function NextTurn(size: nat, l: Level, o: int, e: Entry): int
    requires l.tick > 0
  {
    (TickOf(e.expire, l) + size) * l.tick + o
  }

  lemma StuckKeptTwice(size: nat, ls: Levels, ms: Levels, ns: Levels, o: int, now: int)
    requires AllShaped(size, ls) && AllShaped(size, ms) && AllShaped(size, ns) && |ls| == |ms|
    requires forall j | 0 <= j < |ls| :: ms[j].tick == ls[j].tick
    requires StuckKept(size, ls, ms, o, now) && StuckKept(size, ms, ns, o, now)
    ensures StuckKept(size, ls, ns, o, now)
  {
    forall j: nat, e | StuckAt(size, ls, j, o, e) && now < NextTurn(size, ls[j], o, e)
      ensures StuckAt(size, ns, j, o, e)
    {
      assert StuckAt(size, ms, j, o, e);
    }
  }

  /** One level accepts `now`: what it swept, what it keeps, and the class of each entry it keeps. */
  lemma TurnedLevel(l: Level, m: Level, size: nat, t: int, o: int, now: int, h: nat, e: Entry)
    requires Shape(l, size) && size >= 2 && IsPow2Uint32(size)
    requires 0 <= o < t <= l.tick && l.tick % t == 0 && (now - o) % l.tick == 0
    requires InStep(l, t, o, now - t) && now - l.current >= l.tick && Housed(l, size) && Timely(l, size, o)
    requires m == Level(l.tick, now, l.slots[SlotIndex(now, l.tick, size) := []])
    requires h < size && e in l.slots[h]
    ensures h == SlotIndex(now, l.tick, size) ==> 0 <= e.expire < now + l.tick
    ensures h != SlotIndex(now, l.tick, size) ==> e.expire >= 0 && (Prompt(m, o, e) || Stuck(m, size, o, e))
    ensures h != SlotIndex(now, l.tick, size) && Stuck(m, size, o, e) ==> Stuck(l, size, o, e)
    ensures Stuck(l, size, o, e) && now < NextTurn(size, l, o, e)
            ==> h != SlotIndex(now, l.tick, size) && Stuck(m, size, o, e)
  {
    EntryTurns(l, m, size, t, o, now, e);
    PromptNotStuck(m, size, o, e);
  }

  lemma TurnedTimely(size: nat, ls: Levels, k: nat, o: int, now: int)
    requires Valid(size, ls) && IsPow2Uint32(size) && k < |ls| && CaughtUp(ls, k, now) && AllTimely(size, ls, o)
    requires 0 <= o < ls[0].tick && (now - o) % ls[k].tick == 0
    requires InStep(ls[k], ls[0].tick, o, now - ls[0].tick) && now - ls[k].current >= ls[k].tick
    ensures var i := SlotIndex(now, ls[k].tick, size);
            var ms := Turned(size, ls, k, now);
            && Valid(size, ms) && AllTimely(size, ms, o)
            && (forall e | e in ls[k].slots[i] :: 0 <= e.expire < now + ls[k].tick)
            && StuckKept(size, ls, ms, o, now)
  {
    TurnedKeeps(size, ls, k, now);
    TickMultiple(size, ls, k);
    var i := SlotIndex(now, ls[k].tick, size);
    var ms := Turned(size, ls, k, now);
    var l, m, t := ls[k], ms[k], ls[0].tick;
    forall e | e in l.slots[i] ensures 0 <= e.expire < now + l.tick {
      TurnedLevel(l, m, size, t, o, now, i, e);
    }
    forall h: nat, e | h < size && e in m.slots[h] ensures e.expire >= 0 && (Prompt(m, o, e) || Stuck(m, size, o, e)) {
      TurnedLevel(l, m, size, t, o, now, h, e);
    }
    forall j: nat, e | StuckAt(size, ms, j, o, e) ensures StuckAt(size, ls, j, o, e) {
      if j == k {
        var h: nat :| h < size && e in m.slots[h];
        TurnedLevel(l, m, size, t, o, now, h, e);
      }
    }
    forall j: nat, e | StuckAt(size, ls, j, o, e) && now < NextTurn(size, ls[j], o, e)
      ensures StuckAt(size, ms, j, o, e)
    {
      if j == k {
        var h: nat :| h < size && e in l.slots[h];
        TurnedLevel(l, m, size, t, o, now, h, e);
        assert e in m.slots[h];
      }
    }
  }

  lemma PromptNotStuck(l: Level, size: nat, o: int, e: Entry)
    requires l.tick > 0
    ensures !(Prompt(l, o, e) && Stuck(l, size, o, e))
  {
  }

  /** A level on its grid always accepts the turn it is offered. */
  lemma AlignedAccepts(l: Level, t: int, o: int, now: int)
    requires l.tick > 0 && 0 < t <= l.tick && (now - o) % l.tick == 0 && InStep(l, t, o, now - t) && Aligned(l, o)
    ensures now - l.current >= l.tick
  {
    DivMod(now - o, l.tick);
    var n := TickOf(now - o, l);
    assert (n - 1) * l.tick == n * l.tick - l.tick;
    DivUnique(now - o - t, l.tick, n - 1);
  }

  /** Level k accepts `now`: its own sweep, before any coarser level turns. */
  lemma SweptTimed(size: nat, ls: Levels, k: nat, o: int, now: int)
    requires Valid(size, ls) && IsPow2Uint32(size) && k < |ls| && CaughtUp(ls, k, now) && AllTimely(size, ls, o)
    requires 0 <= o < ls[0].tick && (now - o) % ls[k].tick == 0
    requires InStep(ls[k], ls[0].tick, o, now - ls[0].tick) && now - ls[k].current >= ls[k].tick
    ensures Valid(size, Turned(size, ls, k, now))
    ensures var i := SlotIndex(now, ls[k].tick, size);
            var turned := Turned(size, ls, k, now);
            var ms := Drain(size, turned, ls[k].slots[i], now).levels;
            && Valid(size, ms) && SameClocks(turned, ms) && AllTimely(size, ms, o)
            && InStep(ms[k], ms[0].tick, o, now) && Aligned(ms[k], o) && StuckKept(size, ls, ms, o, now)
            && (forall j | k < j < |ls| :: ms[j] == ls[j]) && ms[k] == turned[k]
            && (k + 1 < |ls| ==> ((now - o) % ls[k + 1].tick == 0 <==> i == 0))
  {
    var i := SlotIndex(now, ls[k].tick, size);
    var es := ls[k].slots[i];
    var turned := Turned(size, ls, k, now);
    TickMultiple(size, ls, k);
    TurnedTimely(size, ls, k, o, now);
    DrainFitsHere(size, ls, k, now);
    forall j | 0 <= j <= k ensures Aligned(turned[j], o) {
      OnGrid(size, ls, k, j, now - o);
    }
    DrainTimed(size, turned, k, o, es, now);
    var ms := Drain(size, turned, es, now).levels;
    StuckKeptTwice(size, ls, turned, ms, o, now);
    AcceptedTurn(ls[k], ls[0].tick, o, now);
    OnGrid(size, ls, k, 0, now - o);
    TurnSlot(ls[k], size, ls[0].tick, o, now);
    if k + 1 < |ls| {
      assert Linked(ls[k], ls[k + 1], size);
      NestedDiv(now - o, ls[k].tick, size);
    }
  }

  /** Clocks from level k up once the levels above k are in step. */
  lemma InStepJoin(size: nat, ls: Levels, k: nat, o: int, c: int)
    requires Valid(size, ls) && k < |ls| && InStep(ls[k], ls[0].tick, o, c) && Aligned(ls[k], o)
    requires InStepFrom(size, ls, k + 1, o, c)
    ensures InStepFrom(size, ls, k, o, c)
  {
  }

  lemma RefusedTimed(size: nat, ls: Levels, k: nat, o: int, now: int)
    requires Valid(size, ls) && k < |ls| && CaughtUp(ls, k, now) && AllTimely(size, ls, o)
    requires (now - o) % ls[k].tick == 0 && InStepFrom(size, ls, k, o, now - ls[0].tick)
    requires now - ls[k].current < ls[k].tick
    ensures InStepFrom(size, ls, k, o, now) && StuckKept(size, ls, ls, o, now)
  {
    TickMultiple(size, ls, k);
    OnGrid(size, ls, k, 0, now - o);
    if Aligned(ls[k], o) { AlignedAccepts(ls[k], ls[0].tick, o, now); }
    InStepRefused(size, ls, k, o, now);
  }

  /** The state before level k is offered `now`, the levels below having turned. */
  ghost predicate Offered(size: nat, ls: Levels, k: nat, o: int, now: int) {
    && Valid(size, ls) && IsPow2Uint32(size) && k < |ls| && CaughtUp(ls, k, now) && AllTimely(size, ls, o)
    && 0 <= o < ls[0].tick && (now - o) % ls[k].tick == 0 && InStepFrom(size, ls, k, o, now - ls[0].tick)
  }

  /** What one `advance` from level k up makes of it. */
  ghost predicate Advanced(size: nat, ls: Levels, ms: Levels, k: nat, o: int, now: int)
    requires AllShaped(size, ls)
  {
    && Valid(size, ms) && |ms| == |ls| && AllTimely(size, ms, o) && InStepFrom(size, ms, k, o, now)
    && CaughtUp(ms, k, now) && (k < |ls| && now - ls[k].current >= ls[k].tick ==> ms[k].current == now)
    && (forall j | 0 <= j < |ls| :: ms[j].tick == ls[j].tick)
    && StuckKept(size, ls, ms, o, now)
  }

  /** Level k's own sweep. */
  function Own(size: nat, ls: Levels, k: nat, now: int): (ms: Levels)
    requires Valid(size, ls) && k < |ls| && CaughtUp(ls, k, now) && now - ls[k].current >= ls[k].tick
    ensures Valid(size, ms) && |ms| == |ls| && CaughtUp(ms, k + 1, now)
  {
    DrainFitsHere(size, ls, k, now);
    Drain(size, Turned(size, ls, k, now), ls[k].slots[SlotIndex(now, ls[k].tick, size)], now).levels
  }

  lemma OwnSweep(size: nat, ls: Levels, k: nat, o: int, now: int)
    requires Offered(size, ls, k, o, now) && now - ls[k].current >= ls[k].tick
    ensures var ms := Own(size, ls, k, now);
            && Valid(size, ms) && |ms| == |ls| && AllTimely(size, ms, o) && CaughtUp(ms, k + 1, now)
            && InStep(ms[k], ms[0].tick, o, now) && Aligned(ms[k], o) && StuckKept(size, ls, ms, o, now)
            && (forall j | 0 <= j < |ls| :: ms[j].tick == ls[j].tick)
            && InStepFrom(size, ms, k + 1, o, now - ms[0].tick) && (now - o) % ms[0].tick == 0
            && (k + 1 < |ls| ==> ((now - o) % ms[k + 1].tick == 0 <==> SlotIndex(now, ls[k].tick, size) == 0))
  {
    SweptTimed(size, ls, k, o, now);
    DrainFitsHere(size, ls, k, now);
    AboveUnchanged(size, ls, Own(size, ls, k, now), k, o, now);
    OnGrid(size, ls, k, 0, now - o);
  }

  lemma TurnsAlone(size: nat, ls: Levels, k: nat, o: int, now: int)
    requires Offered(size, ls, k, o, now) && now - ls[k].current >= ls[k].tick
    requires !(k + 1 < |ls| && SlotIndex(now, ls[k].tick, size) == 0)
    ensures Advanced(size, ls, Own(size, ls, k, now), k, o, now)
  {
    OwnSweep(size, ls, k, o, now);
    var ms := Own(size, ls, k, now);
    InStepAbove(size, ms, k + 1, o, now);
    InStepJoin(size, ms, k, o, now);
  }

  lemma TurnsOn(size: nat, ls: Levels, k: nat, o: int, now: int, ns: Levels)
    requires Offered(size, ls, k, o, now) && now - ls[k].current >= ls[k].tick
    requires Advanced(size, Own(size, ls, k, now), ns, k + 1, o, now)
    ensures Advanced(size, ls, ns, k, o, now)
  {
    OwnSweep(size, ls, k, o, now);
    StuckKeptTwice(size, ls, Own(size, ls, k, now), ns, o, now);
    assert ns[k].current == now && ns[k].tick == ls[k].tick;
    InStepJoin(size, ns, k, o, now);
  }

  /** One tick of the root, with all the turns it causes. */
  lemma {:induction false} AdvanceTimed(size: nat, ls: Levels, k: nat, o: int, now: int)
    requires Offered(size, ls, k, o, now)
    ensures Advanced(size, ls, AdvanceAt(size, ls, k, now).levels, k, o, now)
    decreases |ls| - k
  {
    if now - ls[k].current < ls[k].tick {
      RefusedTimed(size, ls, k, o, now);
    } else {
      var ms := Own(size, ls, k, now);
      OwnSweep(size, ls, k, o, now);
      if k + 1 < |ms| && SlotIndex(now, ls[k].tick, size) == 0 {
        AdvanceTimed(size, ms, k + 1, o, now);
        TurnsOn(size, ls, k, o, now, AdvanceAt(size, ms, k + 1, now).levels);
      } else {
        TurnsAlone(size, ls, k, o, now);
      }
    }
  }

  lemma AboveUnchanged(size: nat, ls: Levels, ms: Levels, k: nat, o: int, now: int)
    requires Valid(size, ls) && Valid(size, ms) && |ms| == |ls| && k < |ls| && ms[0].tick == ls[0].tick
    requires forall j | k < j < |ls| :: ms[j] == ls[j]
    requires InStepFrom(size, ls, k, o, now - ls[0].tick)
    ensures InStepFrom(size, ms, k + 1, o, now - ms[0].tick)
  {
    forall i, j | k + 1 <= i && j == i + 1 < |ms| ensures Adjacent(ms[i], ms[j], o) {
      assert Adjacent(ls[i], ls[j], o);
    }
  }

  // ---- Whole runs ----

  /** The driver moves the root by exactly one tick; tasks arrive at any time. */
  ghost predicate OneTick(size: nat, s: State, ops: seq<Op>)
    requires Valid(size, s.levels)
    decreases |ops|
  {
    ops == [] ||
    (StepKeeps(size, s, ops[0]);
     && (ops[0].Tick? ==> ops[0].now == s.levels[0].current + s.levels[0].tick)
     && OneTick(size, Step(size, s, ops[0]), ops[1..]))
  }

  /** The step puts e in a turn that its level will refuse. */
  predicate PutToMiss(size: nat, s: State, op: Op, e: Entry)
    requires Valid(size, s.levels)
  {
    op.After? && op.delay > 0 && e == Task(op) && MissesTurn(size, s.levels, e)
  }

  /** The root's next clock is on its grid again, in the next tick. */
  lemma NextClock(size: nat, ls: Levels, now: int)
    requires Timed(size, ls) && now == ls[0].current + ls[0].tick
    ensures (now - Phase(ls)) % ls[0].tick == 0 && now % ls[0].tick == Phase(ls)
    ensures TickOf(now, ls[0]) == TickOf(ls[0].current, ls[0]) + 1
  {
    var t := ls[0].tick;
    DivAdd(ls[0].current, t, 1);
    DivAdd(ls[0].current - Phase(ls), t, 1);
    assert now == ls[0].current + 1 * t;
  }

  /** What one step of the one-tick driver keeps, and which entries it can make stuck. */
  lemma StepTimed(size: nat, s: State, op: Op)
    requires Timed(size, s.levels) && (op.Tick? ==> op.now == s.levels[0].current + s.levels[0].tick)
    ensures var t, o := Step(size, s, op), Phase(s.levels);
            && Timed(size, t.levels) && t.levels[0].tick == s.levels[0].tick && Phase(t.levels) == o
            && t.levels[0].current == (if op.Tick? then op.now else s.levels[0].current)
            && (forall j: nat, e :: StuckAt(size, t.levels, j, o, e) ==>
                  StuckAt(size, s.levels, j, o, e) || PutToMiss(size, s, op, e))
            && (forall j: nat, e :: StuckAt(size, s.levels, j, o, e)
                  && t.levels[0].current < NextTurn(size, s.levels[j], o, e)
                  ==> StuckAt(size, t.levels, j, o, e) && t.levels[j].tick == s.levels[j].tick)
            && (forall e | PutToMiss(size, s, op, e) ::
                  exists j: nat :: StuckAt(size, t.levels, j, o, e)
                    && t.levels[j].tick == Landing(size, s.levels, 0, e).tick)
  {
    StepKeeps(size, s, op);
    var ls, o := s.levels, Phase(s.levels);
    if op.Tick? {
      NextClock(size, ls, op.now);
      AdvanceTimed(size, ls, 0, o, op.now);
      AdvanceKeeps(size, ls, 0, op.now);
    } else if op.delay > 0 {
      var e := Task(op);
      RootClockKept(size, ls, e);
      if e.expire - ls[0].current >= ls[0].tick {
        InsertTimed(size, ls, 0, e, o, ls[0].current);
        InsertClocks(size, ls, 0, e);
        var l := Landing(size, ls, 0, e);
        Classified(l, size, o, e);
      }
    }
  }

  lemma {:induction false} RunKeepsTimed(size: nat, s: State, ops: seq<Op>)
    requires Timed(size, s.levels) && OneTick(size, s, ops)
    ensures var t := Run(size, s, ops);
            && Timed(size, t.levels) && t.levels[0].tick == s.levels[0].tick && Phase(t.levels) == Phase(s.levels)
            && t.levels[0].current >= s.levels[0].current
    decreases |ops|
  {
    if ops == [] {
    } else {
      StepTimed(size, s, ops[0]);
      RunKeepsTimed(size, Step(size, s, ops[0]), ops[1..]);
    }
  }

  /** Some `After` of the run puts e in a turn that its level will refuse. */
  ghost predicate Missed(size: nat, s: State, ops: seq<Op>, e: Entry)
    requires Valid(size, s.levels)
    decreases |ops|
  {
    ops != [] &&
    (StepKeeps(size, s, ops[0]);
     PutToMiss(size, s, ops[0], e) || Missed(size, Step(size, s, ops[0]), ops[1..], e))
  }

  /** Over a run an entry becomes stuck only by being put to miss its turn. */
  lemma {:induction false} RunStuck(size: nat, s: State, ops: seq<Op>, j: nat, e: Entry)
    requires Timed(size, s.levels) && OneTick(size, s, ops) && !Missed(size, s, ops, e)
    ensures Timed(size, Run(size, s, ops).levels)
    ensures var o := Phase(s.levels);
      StuckAt(size, Run(size, s, ops).levels, j, o, e) ==> StuckAt(size, s.levels, j, o, e)
    decreases |ops|
  {
    if ops == [] {
    } else {
      StepTimed(size, s, ops[0]);
      RunStuck(size, Step(size, s, ops[0]), ops[1..], j, e);
    }
  }

  /** The turn of a prompt entry has not begun when the root shows its clock. */
  lemma PromptTurnAhead(size: nat, ls: Levels, k: nat, e: Entry)
    requires Timed(size, ls) && k < |ls| && Prompt(ls[k], Phase(ls), e)
    ensures ls[0].current - Phase(ls) < TickOf(e.expire, ls[k]) * ls[k].tick <= e.expire
  {
    var l, o := ls[k], Phase(ls);
    var c, q := ls[0].current - o, TickOf(e.expire, l);
    DivBounds(e.expire, l.tick);
    DivBounds(c, l.tick);
    assert InStep(l, ls[0].tick, o, ls[0].current);
    var f := Turn(l, o);
    if Aligned(l, o) {
      MulMod(TickOf(c, l), l.tick);
      MulMono(f + 1, q, l.tick);
    } else {
      MulMono(f + 2, q, l.tick);
    }
  }

  /** A prompt entry belongs to a later tick than the root's clock. */
  lemma PromptIsAhead(size: nat, ls: Levels, k: nat, e: Entry)
    requires Timed(size, ls) && k < |ls| && Prompt(ls[k], Phase(ls), e)
    ensures TickOf(e.expire, ls[0]) > TickOf(ls[0].current, ls[0])
  {
    var l, o, t := ls[k], Phase(ls), ls[0].tick;
    var c := ls[0].current - o;
    TickMultiple(size, ls, k);
    PromptTurnAhead(size, ls, k, e);
    NextGridPoint(c, t, l.tick, TickOf(e.expire, l));
    WithinTurn(c, t, t, o);
    DivAdd(c, t, 1);
    DivMono(c + 1 * t, e.expire, t);
  }

  /** Only stuck entries are overdue. */
  lemma HeldIsAhead(size: nat, ls: Levels, e: Entry)
    requires Timed(size, ls) && Held(ls, e) > 0 && !StuckHeld(size, ls, Phase(ls), e)
    ensures TickOf(e.expire, ls[0]) > TickOf(ls[0].current, ls[0])
  {
    var k, i := HeldSomewhere(size, ls, e);
    assert Timely(ls[k], size, Phase(ls));
    if Prompt(ls[k], Phase(ls), e) {
      PromptIsAhead(size, ls, k, e);
    } else {
      assert StuckAt(size, ls, k, Phase(ls), e);
    }
  }

  /**
   * What a plain list of tasks would have done: everything whose tick the root shows has been started, and
   * nothing that is a whole tick away. In between lies only what belongs to the next tick, less than a tick away.
   */
  predicate LikeList(s: State, e: Entry)
    requires |s.levels| > 0 && s.levels[0].tick > 0
  {
    var root := s.levels[0];
    && (TickOf(e.expire, root) <= TickOf(root.current, root) ==> s.started[e] == (s.given - s.atOnce)[e])
    && (e.expire - root.current >= root.tick ==> s.started[e] == 0)
  }

  lemma StartedLikeList(size: nat, s: State, e: Entry)
    requires Timed(size, s.levels) && Conserved(s) && NoneEarly(s.started, s.levels[0])
    requires !StuckHeld(size, s.levels, Phase(s.levels), e)
    ensures LikeList(s, e)
  {
    if Held(s.levels, e) > 0 {
      HeldIsAhead(size, s.levels, e);
    }
  }

  /** The hierarchical wheel and a plain list agree on every task that is not put to miss its turn. */
  lemma FiresOnTime(size: nat, s: State, ops: seq<Op>, e: Entry)
    requires Timed(size, s.levels) && OneTick(size, s, ops) && Conserved(s) && NoneEarly(s.started, s.levels[0])
    requires !StuckHeld(size, s.levels, Phase(s.levels), e) && !Missed(size, s, ops, e)
    ensures Valid(size, Run(size, s, ops).levels) && LikeList(Run(size, s, ops), e)
  {
    RunKeepsTimed(size, s, ops);
    RunConserves(size, s, ops);
    NeverEarly(size, s, ops);
    forall j: nat ensures !StuckAt(size, Run(size, s, ops).levels, j, Phase(s.levels), e) {
      RunStuck(size, s, ops, j, e);
    }
    StartedLikeList(size, Run(size, s, ops), e);
  }

  lemma {:induction false} HeldInSlot(slots: seq<seq<Entry>>, e: Entry) returns (i: nat)
    requires HeldSlots(slots, e) > 0
    ensures i < |slots| && e in slots[i]
  {
    if e in slots[0] {
      i := 0;
    } else {
      i := HeldInSlot(slots[1..], e);
      i := i + 1;
    }
  }

  lemma {:induction false} HeldInLevels(ls: Levels, e: Entry) returns (k: nat, i: nat)
    requires Held(ls, e) > 0
    ensures k < |ls| && i < |ls[k].slots| && e in ls[k].slots[i]
  {
    if HeldSlots(ls[0].slots, e) > 0 {
      k := 0;
      i := HeldInSlot(ls[0].slots, e);
    } else {
      k, i := HeldInLevels(ls[1..], e);
      k := k + 1;
    }
  }

  lemma HeldSomewhere(size: nat, ls: Levels, e: Entry) returns (k: nat, i: nat)
    requires Valid(size, ls) && Held(ls, e) > 0
    ensures k < |ls| && i < size && e in ls[k].slots[i]
  {
    k, i := HeldInLevels(ls, e);
    assert Shape(ls[k], size);
  }

  /** From a fresh wheel, started at any instant. */
  lemma FreshTimed(tick: int, size: nat, start: int)
    requires tick > 0 && size >= 2 && IsPow2Uint32(size) && start >= 0
    ensures var s := Init(tick, size, start);
            && Timed(size, s.levels) && Conserved(s) && NoneEarly(s.started, s.levels[0])
            && RootAhead(size, s.levels) && forall e :: !StuckHeld(size, s.levels, Phase(s.levels), e)
  {
    InitConserved(tick, size, start);
    FreshRoot(Init(tick, size, start).levels[0]);
  }

  lemma FreshRoot(l: Level)
    requires l.tick > 0 && l.current >= 0
    ensures var o := l.current % l.tick; Aligned(l, o) && InStep(l, l.tick, o, l.current)
  {
    DivMod(l.current, l.tick);
    MulMod(l.current / l.tick, l.tick);
  }

  lemma StuckStep(size: nat, s: State, op: Op, j: nat, e: Entry)
    requires Timed(size, s.levels) && (op.Tick? ==> op.now == s.levels[0].current + s.levels[0].tick)
    requires StuckAt(size, s.levels, j, Phase(s.levels), e)
    requires Valid(size, Step(size, s, op).levels)
    requires Step(size, s, op).levels[0].current < NextTurn(size, s.levels[j], Phase(s.levels), e)
    ensures var t, o := Step(size, s, op), Phase(s.levels);
      && Timed(size, t.levels) && Phase(t.levels) == o && StuckAt(size, t.levels, j, o, e)
      && NextTurn(size, t.levels[j], o, e) == NextTurn(size, s.levels[j], o, e)
  {
    StepTimed(size, s, op);
  }

  /** A stuck entry is held until the root reaches its turn one revolution later. */
  lemma {:induction false} StuckUntil(size: nat, s: State, ops: seq<Op>, j: nat, e: Entry)
    requires Timed(size, s.levels) && OneTick(size, s, ops) && StuckAt(size, s.levels, j, Phase(s.levels), e)
    ensures Timed(size, Run(size, s, ops).levels)
    ensures var o := Phase(s.levels);
      Run(size, s, ops).levels[0].current < NextTurn(size, s.levels[j], o, e) ==>
        StuckAt(size, Run(size, s, ops).levels, j, o, e)
    decreases |ops|
  {
    RunKeepsTimed(size, s, ops);
    if ops == [] {
    } else {
      StepTimed(size, s, ops[0]);
      var s' := Step(size, s, ops[0]);
      if s'.levels[0].current < NextTurn(size, s.levels[j], Phase(s.levels), e) {
        StuckStep(size, s, ops[0], j, e);
        StuckUntil(size, s', ops[1..], j, e);
      } else {
        RunKeepsTimed(size, s', ops[1..]);
      }
    }
  }

  /** A stuck entry's turn has not come round yet. */
  lemma StuckIsBefore(size: nat, ls: Levels, j: nat, e: Entry)
    requires Timed(size, ls) && StuckAt(size, ls, j, Phase(ls), e)
    ensures ls[0].current < NextTurn(size, ls[j], Phase(ls), e)
  {
    var l, o := ls[j], Phase(ls);
    var c := ls[0].current - o;
    assert InStep(l, ls[0].tick, o, ls[0].current);
    var q, f := TickOf(e.expire, l), Turn(l, o);
    if Aligned(l, o) {
      MulMod(TickOf(c, l), l.tick);
      DivBounds(c, l.tick);
      MulMono(f + 1, q + size, l.tick);
    } else {
      MulMono(f + 2, q + size, l.tick);
    }
  }

  lemma {:induction false} RunGiven(size: nat, s: State, ops: seq<Op>, e: Entry)
    requires Valid(size, s.levels)
    ensures var t := Run(size, s, ops);
            && t.given[e] >= s.given[e] && t.atOnce[e] >= s.atOnce[e]
            && t.given[e] - s.given[e] >= t.atOnce[e] - s.atOnce[e]
            && (Missed(size, s, ops, e) ==> t.given[e] > s.given[e])
    decreases |ops|
  {
    if ops == [] {
    } else {
      StepKeeps(size, s, ops[0]);
      RunGiven(size, Step(size, s, ops[0]), ops[1..], e);
    }
  }

  /** Everything known about a run in which the task of `op` is given exactly once, at the start. */
  ghost predicate GivenOnce(size: nat, s: State, op: Op, ops: seq<Op>) {
    && Timed(size, s.levels) && Conserved(s) && NoneEarly(s.started, s.levels[0])
    && Valid(size, Step(size, s, op).levels) && OnlyOnce(size, s, op, ops)
  }

  /** What is asked of the callers and of the driver: op gives a task once, and ops moves by exactly one tick. */
  ghost predicate OnlyOnce(size: nat, s: State, op: Op, ops: seq<Op>)
    requires Valid(size, s.levels)
  {
    StepKeeps(size, s, op);
    && op.After? && op.delay > 0 && s.given[Task(op)] == 0
    && OneTick(size, Step(size, s, op), ops) && Run(size, Step(size, s, op), ops).given[Task(op)] == 1
  }

  lemma NotHeldYet(size: nat, s: State, o: int, e: Entry)
    requires Valid(size, s.levels) && Conserved(s) && s.given[e] == 0
    ensures !StuckHeld(size, s.levels, o, e)
  {
    if j: nat :| StuckAt(size, s.levels, j, o, e) {
      var i :| 0 <= i < size && e in s.levels[j].slots[i];
      InLevels(s.levels, j, i, e);
    }
  }

  lemma OnceStarts(size: nat, s: State, op: Op, ops: seq<Op>)
    requires GivenOnce(size, s, op, ops)
    ensures var e, s' := Task(op), Step(size, s, op);
            && Timed(size, s'.levels) && Conserved(s') && NoneEarly(s'.started, s'.levels[0]) && s'.given[e] == 1
            && Phase(s'.levels) == Phase(s.levels) && !Missed(size, s', ops, e)
  {
    StepTimed(size, s, op);
    StepConserves(size, s, op);
    StepNotEarly(size, s, op);
    RunGiven(size, Step(size, s, op), ops, Task(op));
  }

  lemma OnceFacts(size: nat, s: State, op: Op, ops: seq<Op>)
    requires GivenOnce(size, s, op, ops)
    ensures var e, s' := Task(op), Step(size, s, op);
            var t := Run(size, s', ops);
            && !StuckHeld(size, s.levels, Phase(s.levels), e) && !Missed(size, s', ops, e)
            && Timed(size, s'.levels) && Conserved(s') && NoneEarly(s'.started, s'.levels[0]) && s'.given[e] == 1
            && Timed(size, t.levels) && Conserved(t) && NoneEarly(t.started, t.levels[0]) && t.atOnce[e] == 0
            && Phase(s'.levels) == Phase(t.levels) == Phase(s.levels)
  {
    var e, s' := Task(op), Step(size, s, op);
    OnceStarts(size, s, op, ops);
    RunGiven(size, s', ops, e);
    RunKeepsTimed(size, s', ops);
    RunConserves(size, s', ops);
    NeverEarly(size, s', ops);
    NotHeldYet(size, s, Phase(s.levels), e);
  }

  lemma LateBy(size: nat, l: Level, o: int, e: Entry)
    requires l.tick > 0 && size > 0 && o >= 0
    ensures NextTurn(size, l, o, e) - e.expire > (size - 1) * l.tick >= 0
  {
    var q := TickOf(e.expire, l);
    DivBounds(e.expire, l.tick);
    assert (q + size) * l.tick == (q + 1) * l.tick + (size - 1) * l.tick;
    MulMono(0, size - 1, l.tick);
  }

  /** The single copy of e is stuck on one level only. */
  lemma StuckOnce(size: nat, s: State, j: nat, k: nat, o: int, e: Entry)
    requires Valid(size, s.levels) && Conserved(s) && s.given[e] == 1
    requires StuckAt(size, s.levels, j, o, e) && StuckAt(size, s.levels, k, o, e)
    ensures j == k
  {
    var i :| 0 <= i < size && e in s.levels[j].slots[i];
    var i' :| 0 <= i' < size && e in s.levels[k].slots[i'];
    NeverInTwoBuckets(size, s, e, j, i, k, i');
  }

  lemma StuckIsHeld(size: nat, s: State, j: nat, o: int, e: Entry)
    requires Valid(size, s.levels) && Conserved(s) && s.given[e] == 1 && StuckAt(size, s.levels, j, o, e)
    ensures s.started[e] == 0
  {
    var i :| 0 <= i < size && e in s.levels[j].slots[i];
    InLevels(s.levels, j, i, e);
  }

  /** A single stuck copy starts exactly when its turn comes round again. */
  lemma StuckStartsAt(size: nat, s: State, ops: seq<Op>, j: nat, e: Entry)
    requires Timed(size, s.levels) && OneTick(size, s, ops) && Conserved(s) && NoneEarly(s.started, s.levels[0])
    requires StuckAt(size, s.levels, j, Phase(s.levels), e) && !Missed(size, s, ops, e) && s.given[e] == 1
    requires Run(size, s, ops).given[e] == 1 && Run(size, s, ops).atOnce[e] == 0
    ensures Timed(size, Run(size, s, ops).levels)
    ensures Run(size, s, ops).started[e] == 1
            <==> Run(size, s, ops).levels[0].current >= NextTurn(size, s.levels[j], Phase(s.levels), e)
  {
    var t, o := Run(size, s, ops), Phase(s.levels);
    RunKeepsTimed(size, s, ops);
    RunConserves(size, s, ops);
    NeverEarly(size, s, ops);
    StuckUntil(size, s, ops, j, e);
    if t.levels[0].current < NextTurn(size, s.levels[j], o, e) {
      StuckIsHeld(size, t, j, o, e);
    } else {
      forall k: nat ensures !StuckAt(size, t.levels, k, o, e) {
        if StuckAt(size, t.levels, k, o, e) {
          RunStuck(size, s, ops, k, e);
          StuckOnce(size, s, j, k, o, e);
          RunTicks(size, s, ops, j);
          StuckIsBefore(size, t.levels, j, e);
          NextTurnByTick(size, t.levels[j], s.levels[j], o, e);
        }
      }
      StartedLikeList(size, t, e);
      TurnPassed(s.levels[j], size, o, t.levels[0], e);
    }
  }

  /** By the time a refused turn has come round again the root shows the tick of the entry. */
  lemma TurnPassed(l: Level, size: nat, o: int, root: Level, e: Entry)
    requires l.tick > 0 && size > 0 && root.tick > 0 && o >= 0 && root.current >= NextTurn(size, l, o, e)
    ensures TickOf(e.expire, root) <= TickOf(root.current, root)
  {
    LateBy(size, l, o, e);
    DivMono(e.expire, root.current, root.tick);
  }

  lemma NextTurnByTick(size: nat, l: Level, m: Level, o: int, e: Entry)
    requires l.tick == m.tick > 0
    ensures NextTurn(size, l, o, e) == NextTurn(size, m, o, e)
  {
  }

  /** A task put to miss its turn starts exactly when that turn comes round again, more than size - 1 turns late. */
  lemma MissedStartsAt(size: nat, s: State, op: Op, ops: seq<Op>)
    requires GivenOnce(size, s, op, ops) && MissesTurn(size, s.levels, Task(op))
    ensures var e, l, o := Task(op), Landing(size, s.levels, 0, Task(op)), Phase(s.levels);
            var t := Run(size, Step(size, s, op), ops);
            && |t.levels| > 0
            && (t.started[e] == 1 <==> t.levels[0].current >= NextTurn(size, l, o, e))
            && NextTurn(size, l, o, e) - e.expire > (size - 1) * l.tick
  {
    var e, l, s' := Task(op), Landing(size, s.levels, 0, Task(op)), Step(size, s, op);
    var o := Phase(s.levels);
    OnceFacts(size, s, op, ops);
    StepTimed(size, s, op);
    assert PutToMiss(size, s, op, e);
    var j: nat :| StuckAt(size, s'.levels, j, o, e) && s'.levels[j].tick == l.tick;
    StuckStartsAt(size, s', ops, j, e);
    NextTurnByTick(size, s'.levels[j], l, o, e);
    LateBy(size, l, o, e);
  }

  lemma {:induction false} RunTicks(size: nat, s: State, ops: seq<Op>, k: nat)
    requires Valid(size, s.levels) && k < |s.levels|
    ensures Valid(size, Run(size, s, ops).levels)
    ensures k < |Run(size, s, ops).levels| && Run(size, s, ops).levels[k].tick == s.levels[k].tick
    decreases |ops|
  {
    if ops == [] {
    } else {
      StepKeeps(size, s, ops[0]);
      if ops[0].After? {
        InsertClocks(size, s.levels, 0, Task(ops[0]));
      } else {
        AdvanceKeeps(size, s.levels, 0, ops[0].now);
      }
      RunTicks(size, Step(size, s, ops[0]), ops[1..], k);
    }
  }

  /** The root's clock in the sweep of the entry's tick. */
  function Due(root: Level, o: int, e: Entry): int
    requires root.tick > 0
  {
    TickOf(e.expire, root) * root.tick + o
  }

  /** A task that fits the root never misses its turn. */
  lemma RootNeverMisses(size: nat, ls: Levels, e: Entry)
    requires Timed(size, ls) && e.expire - ls[0].current < Span(ls[0], size)
    ensures !MissesTurn(size, ls, e)
  {
  }

  /** The due sweep in terms of the root's clock, and how far it is from the expire time. */
  lemma DueReached(root: Level, now: Level, o: int, e: Entry)
    requires now.tick == root.tick && 0 <= o < root.tick && Aligned(now, o)
    ensures TickOf(e.expire, now) <= TickOf(now.current, now) <==> now.current >= Due(root, o, e)
    ensures o <= e.expire % root.tick && e.expire - now.current < now.tick ==> now.current >= Due(root, o, e)
    ensures e.expire - root.tick < Due(root, o, e) < e.expire + root.tick
    ensures Due(root, o, e) < e.expire <==> o < e.expire % root.tick
    ensures Due(root, o, e) > e.expire <==> o > e.expire % root.tick
  {
    var tick := root.tick;
    DivMod(e.expire, tick);
    DivMod(now.current - o, tick);
    MulMod(1, tick);
    WithinTurn(now.current - o, tick, tick, o);
    var c, q := TickOf(now.current, now), TickOf(e.expire, root);
    assert (c + 1) * tick == c * tick + tick;
    assert (q + 1) * tick == q * tick + tick;
    if c >= q { MulMono(q, c, tick); } else { MulMono(c + 1, q, tick); }
  }

  /**
   * The delay is not a lower bound: a task that does not miss its turn has been started once the root's clock
   * reaches floor(expire / tick) * tick + o, and not while it is a whole tick away. That sweep lies before the
   * expire time exactly if expire % tick exceeds the phase o, and after it if it falls short.
   */
  lemma OnTimeStartsAt(size: nat, s: State, op: Op, ops: seq<Op>)
    requires GivenOnce(size, s, op, ops) && !MissesTurn(size, s.levels, Task(op))
    ensures var t := Run(size, Step(size, s, op), ops);
            var e, root, o := Task(op), s.levels[0], Phase(s.levels);
            && |t.levels| > 0
            && (t.levels[0].current >= Due(root, o, e) ==> t.started[e] == 1)
            && (t.started[e] == 1 ==> t.levels[0].current > e.expire - root.tick)
            && (o <= e.expire % root.tick ==> (t.started[e] == 1 <==> t.levels[0].current >= Due(root, o, e)))
            && e.expire - root.tick < Due(root, o, e) < e.expire + root.tick
            && (Due(root, o, e) < e.expire <==> o < e.expire % root.tick)
            && (Due(root, o, e) > e.expire <==> o > e.expire % root.tick)
  {
    var e, s' := Task(op), Step(size, s, op);
    var t := Run(size, s', ops);
    OnceFacts(size, s, op, ops);
    StepTimed(size, s, op);
    forall j: nat ensures !StuckAt(size, s'.levels, j, Phase(s.levels), e) {
      assert !PutToMiss(size, s, op, e);
    }
    FiresOnTime(size, s', ops, e);
    RunKeepsTimed(size, s', ops);
    DueReached(s.levels[0], t.levels[0], Phase(s.levels), e);
  }

  lemma {:induction false} OneTickConsecutive(size: nat, s: State, ops: seq<Op>)
    requires Timed(size, s.levels) && OneTick(size, s, ops)
    ensures Consecutive(size, s, ops)
    decreases |ops|
  {
    if ops == [] {
    } else {
      StepTimed(size, s, ops[0]);
      if ops[0].Tick? { NextClock(size, s.levels, ops[0].now); }
      OneTickConsecutive(size, Step(size, s, ops[0]), ops[1..]);
    }
  }

  /** A task that fits the root starts exactly in its due sweep, for every phase. */
  lemma RootStartsAt(size: nat, s: State, op: Op, ops: seq<Op>)
    requires GivenOnce(size, s, op, ops) && RootAhead(size, s.levels)
    requires s.levels[0].tick <= Task(op).expire - s.levels[0].current < Span(s.levels[0], size)
    ensures var t := Run(size, Step(size, s, op), ops);
            && |t.levels| > 0
            && (t.started[Task(op)] == 1 <==> t.levels[0].current >= Due(s.levels[0], Phase(s.levels), Task(op)))
  {
    var e, s', o := Task(op), Step(size, s, op), Phase(s.levels);
    var t := Run(size, s', ops);
    RootNeverMisses(size, s.levels, e);
    OnTimeStartsAt(size, s, op, ops);
    OnceFacts(size, s, op, ops);
    StepTimed(size, s, op);
    InsertRoot(size, s.levels, e, e);
    OneTickConsecutive(size, s', ops);
    RootTimely(size, s', ops, e);
    RunKeepsTimed(size, s', ops);
    DueReached(s.levels[0], t.levels[0], o, e);
    if t.levels[0].current < Due(s.levels[0], o, e) {
      InLevels(t.levels, 0, SlotIndex(e.expire, t.levels[0].tick, size), e);
    }
  }

  /**
   * Exactly when a task is on time, for every start of the wheel: when the root first shows the tick of its
   * expire time it has been started if and only if it did not land off-grid in the turn that its level
   * refuses. `MissesTurn` is decided before `After`.
   */
  lemma OnTimeIff(size: nat, s: State, op: Op, ops: seq<Op>)
    requires GivenOnce(size, s, op, ops) && |Run(size, Step(size, s, op), ops).levels| > 0
    requires Run(size, Step(size, s, op), ops).levels[0].current == Due(s.levels[0], Phase(s.levels), Task(op))
    ensures Run(size, Step(size, s, op), ops).started[Task(op)] == 1 <==> !MissesTurn(size, s.levels, Task(op))
  {
    var e := Task(op);
    if MissesTurn(size, s.levels, e) {
      MissedStartsAt(size, s, op, ops);
      DueBefore(size, s.levels[0], Landing(size, s.levels, 0, e), Phase(s.levels), e);
    } else {
      OnTimeStartsAt(size, s, op, ops);
    }
  }

  lemma DueBefore(size: nat, root: Level, l: Level, o: int, e: Entry)
    requires root.tick > 0 && l.tick > 0 && size >= 2
    ensures Due(root, o, e) < NextTurn(size, l, o, e)
  {
    var q := TickOf(e.expire, l);
    DivBounds(e.expire, root.tick);
    DivBounds(e.expire, l.tick);
    MulMono(q + 1, q + size, l.tick);
  }

  /** n ticks of the driver. */
  function Ticks(tick: int, clock: int, n: nat): seq<Op>
    decreases n
  {
    if n == 0 then [] else [Tick(clock + tick)] + Ticks(tick, clock + tick, n - 1)
  }

  /** The operations are ticks of the driver and end with the root's clock at `clock`. */
  ghost predicate Drives(size: nat, s: State, ops: seq<Op>, clock: int)
    requires Valid(size, s.levels)
    decreases |ops|
  {
    if ops == [] then s.levels[0].current == clock
    else
      StepKeeps(size, s, ops[0]);
      && ops[0] == Tick(s.levels[0].current + s.levels[0].tick)
      && Drives(size, Step(size, s, ops[0]), ops[1..], clock)
  }

  lemma {:induction false} DrivesOneTick(size: nat, s: State, ops: seq<Op>, clock: int)
    requires Valid(size, s.levels) && Drives(size, s, ops, clock)
    ensures OneTick(size, s, ops) && Run(size, s, ops).given == s.given
    ensures |Run(size, s, ops).levels| > 0 && Run(size, s, ops).levels[0].current == clock
    decreases |ops|
  {
    if ops == [] {
    } else {
      StepKeeps(size, s, ops[0]);
      DrivesOneTick(size, Step(size, s, ops[0]), ops[1..], clock);
    }
  }

  lemma FirstTick(tick: int, clock: int, n: nat)
    requires n > 0
    ensures var ops := Ticks(tick, clock, n);
            ops != [] && ops[0] == Tick(clock + tick) && ops[1..] == Ticks(tick, clock + tick, n - 1)
  {
  }

  function ClockAfter(tick: int, clock: int, n: nat): int
    decreases n
  {
    if n == 0 then clock else ClockAfter(tick, clock + tick, n - 1)
  }

  lemma {:induction false} ClockAfterIs(tick: int, clock: int, n: nat)
    ensures ClockAfter(tick, clock, n) == clock + n * tick
    decreases n
  {
    if n == 0 {
    } else {
      ClockAfterIs(tick, clock + tick, n - 1);
      assert clock + n * tick == (clock + tick) + (n - 1) * tick;
    }
  }

  lemma DrivesFirst(size: nat, s: State, ops: seq<Op>, clock: int)
    requires Valid(size, s.levels) && ops != [] && ops[0] == Tick(s.levels[0].current + s.levels[0].tick)
    requires Valid(size, Step(size, s, ops[0]).levels) && Drives(size, Step(size, s, ops[0]), ops[1..], clock)
    ensures Drives(size, s, ops, clock)
  {
  }

  /** A tick of the driver is accepted by the root. */
  lemma RootAccepts(size: nat, s: State, now: int)
    requires Valid(size, s.levels) && now == s.levels[0].current + s.levels[0].tick
    ensures var t := Step(size, s, Tick(now));
            Valid(size, t.levels) && t.levels[0].tick == s.levels[0].tick && t.levels[0].current == now
  {
    var ls := s.levels;
    SweptKeeps(size, ls, 0, now);
    AdvanceKeeps(size, ls, 0, now);
    var ms := Drain(size, Turned(size, ls, 0, now), ls[0].slots[SlotIndex(now, ls[0].tick, size)], now).levels;
    if 1 < |ms| { AdvanceKeeps(size, ms, 1, now); }
  }

  lemma OneMoreTick(size: nat, s: State, tick: int, clock: int, n: nat, end: int) returns (t: State)
    requires Valid(size, s.levels) && s.levels[0].tick == tick && s.levels[0].current == clock && n > 0
    ensures Valid(size, t.levels) && t.levels[0].tick == tick && t.levels[0].current == clock + tick
    ensures Drives(size, t, Ticks(tick, clock + tick, n - 1), end) ==> Drives(size, s, Ticks(tick, clock, n), end)
  {
    t := Step(size, s, Tick(clock + tick));
    RootAccepts(size, s, clock + tick);
    FirstTick(tick, clock, n);
    if Drives(size, t, Ticks(tick, clock + tick, n - 1), end) {
      DrivesFirst(size, s, Ticks(tick, clock, n), end);
    }
  }

  lemma {:induction false} TicksRun(size: nat, s: State, tick: int, clock: int, n: nat, end: int)
    requires Valid(size, s.levels) && s.levels[0].tick == tick && s.levels[0].current == clock
    requires end == ClockAfter(tick, clock, n)
    ensures Drives(size, s, Ticks(tick, clock, n), end)
    decreases n
  {
    if n == 0 {
    } else {
      var t := OneMoreTick(size, s, tick, clock, n, end);
      TicksRun(size, t, tick, clock + tick, n - 1, end);
    }
  }

  /** On a wheel with tick 1 at clock 1, a task `size` ticks away: its new level refuses turn 1, where it belongs. */
  lemma EveryWheelMisses(size: nat, s: State, e: Entry)
    requires IsPow2Uint32(size) && size >= 2 && s == Init(1, size, 1) && e.expire == size + 1
    ensures Timed(size, s.levels) && Conserved(s) && NoneEarly(s.started, s.levels[0])
    ensures MissesTurn(size, s.levels, e)
    ensures NextTurn(size, Landing(size, s.levels, 0, e), Phase(s.levels), e) == (1 + size) * size
  {
    FreshTimed(1, size, 1);
    ModOfSmall(1, size);
    DivUnique(size + 1, size, 1);
    var ms := WithOverflow(size, s.levels, 0);
    assert ms[1] == NewLevel(s.levels[0], size) && ms[1].tick == size && ms[1].current == 1;
    assert size + 1 - 1 < size * size by { MulMono(2, size, size); }
    assert Landing(size, ms, 1, e) == ms[1];
  }

  /**
   * A miss for every number of slots. Tick 1, clock 1, a delay of `size`: the task is due at size + 1 and
   * starts only when the clock shows (1 + size) * size; with four slots, at 20 instead of 5.
   */
  lemma MissedTurnExample(size: nat, s: State, op: Op, n: nat)
    requires IsPow2Uint32(size) && size >= 2 && s == Init(1, size, 1) && op == After(1, size, 7)
    ensures Valid(size, s.levels) && Valid(size, Step(size, s, op).levels)
    ensures Run(size, Step(size, s, op), Ticks(1, 1, n)).started[Task(op)] == 1 <==> 1 + n >= (1 + size) * size
  {
    EveryWheelMisses(size, s, Task(op));
    StepTimed(size, s, op);
    TicksRun(size, Step(size, s, op), 1, 1, n, ClockAfter(1, 1, n));
    DrivesOneTick(size, Step(size, s, op), Ticks(1, 1, n), ClockAfter(1, 1, n));
    ClockAfterIs(1, 1, n);
    assert GivenOnce(size, s, op, Ticks(1, 1, n));
    MissedStartsAt(size, s, op, Ticks(1, 1, n));
  }
}
