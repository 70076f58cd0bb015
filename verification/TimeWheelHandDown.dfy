/**
 * How often a task is moved. Under the one-tick driver every level sweeps a copy at most once, and only levels
 * up to the one it landed on do; so a task is put back into a bucket at most as often as there are levels
 * below that one.
 */
module TimeWheelHandDown {
  import opened TimeWheel
  import opened TimeWheelSafety
  import opened TimeWheelRoot
  import opened TimeWheelCascade
  import opened TimeWheelPunctual

  function From(ls: Levels, j: nat): Levels {
    if j <= |ls| then ls[j..] else []
  }

  /** Copies of e on level j and the levels above it. */
  function HeldFrom(ls: Levels, j: nat, e: Entry): nat {
    Held(From(ls, j), e)
  }

  // ---- What one insertion and one sweep do to the upper levels ----

  lemma PutHeldFrom(ls: Levels, k: nat, i: nat, l: Level, es: seq<Entry>, j: nat, f: Entry)
    requires k < |ls| && i < |ls[k].slots| && l.slots == ls[k].slots[i := es]
    ensures HeldFrom(ls[k := l], j, f) + (if j <= k then multiset(ls[k].slots[i])[f] else 0)
         == HeldFrom(ls, j, f) + if j <= k then multiset(es)[f] else 0
  {
    if j <= k {
      assert From(ls[k := l], j) == From(ls, j)[k - j := l];
      HeldSlotChange(From(ls, j), k - j, i, l, es, f);
    } else {
      assert From(ls[k := l], j) == From(ls, j);
    }
  }

  lemma OverflowHeldFrom(size: nat, ls: Levels, k: nat, j: nat, f: Entry)
    requires k < |ls|
    ensures HeldFrom(WithOverflow(size, ls, k), j, f) == HeldFrom(ls, j, f)
  {
    if k + 1 == |ls| {
      var l := NewLevel(ls[k], size);
      HeldEmptySlots(l.slots, f);
      if j <= |ls| {
        assert From(ls + [l], j) == From(ls, j) + [l];
        HeldAppend(From(ls, j), l, f);
      } else {
        assert From(ls + [l], j) == [];
      }
    }
  }

  /** An insertion adds its entry to level `LandsOn`, and so to every count up to that level. */
  lemma {:induction false} InsertHeldFrom(size: nat, ls: Levels, k: nat, e: Entry, j: nat, f: Entry)
    requires size >= 2 && k < |ls| && AllShaped(size, ls)
    ensures var p := InsertAt(size, ls, k, e);
      HeldFrom(p.levels, j, f)
        == HeldFrom(ls, j, f) + if !p.started && e == f && j <= LandsOn(size, ls, k, e) then 1 else 0
    decreases |ls| - k, Slack(ls[k], e)
  {
    var remaining := e.expire - ls[k].current;
    if remaining < ls[k].tick {
    } else if remaining < Span(ls[k], size) {
      var i := SlotIndex(e.expire, ls[k].tick, size);
      PutHeldFrom(ls, k, i, Put(ls[k], e, size), ls[k].slots[i] + [e], j, f);
    } else {
      NewLevelShape(ls[k], size);
      OverflowHeldFrom(size, ls, k, j, f);
      InsertHeldFrom(size, WithOverflow(size, ls, k), k + 1, e, j, f);
    }
  }

  lemma {:induction false} DrainHeldFrom(size: nat, ls: Levels, es: seq<Entry>, now: int, j: nat, f: Entry)
    requires Valid(size, ls)
    ensures var r := Drain(size, ls, es, now);
      HeldFrom(r.levels, j, f) + r.started[f] <= HeldFrom(ls, j, f) + multiset(es)[f]
    decreases |es|
  {
    if es == [] {
    } else {
      assert es == [es[0]] + es[1..];
      if es[0].expire <= now {
        DrainHeldFrom(size, ls, es[1..], now, j, f);
      } else {
        InsertKeeps(size, ls, 0, es[0]);
        InsertHeldFrom(size, ls, 0, es[0], j, f);
        DrainHeldFrom(size, InsertAt(size, ls, 0, es[0]).levels, es[1..], now, j, f);
      }
    }
  }

  /** The copies of e in the bucket that level k sweeps. */
  function InBucket(size: nat, ls: Levels, k: nat, now: int, e: Entry): nat
    requires size > 0 && k < |ls| && AllShaped(size, ls)
  {
    multiset(ls[k].slots[SlotIndex(now, ls[k].tick, size)])[e]
  }

  /** Those of them that the sweep starts: the others are put back into a bucket. */
  function StartedBy(size: nat, ls: Levels, k: nat, now: int, e: Entry): nat
    requires Valid(size, ls) && k < |ls| && CaughtUp(ls, k, now) && now - ls[k].current >= ls[k].tick
  {
    DrainFitsHere(size, ls, k, now);
    Drain(size, Turned(size, ls, k, now), ls[k].slots[SlotIndex(now, ls[k].tick, size)], now).started[e]
  }

  lemma StartedByBound(size: nat, ls: Levels, k: nat, now: int, e: Entry)
    requires Valid(size, ls) && k < |ls| && CaughtUp(ls, k, now) && now - ls[k].current >= ls[k].tick
    ensures StartedBy(size, ls, k, now, e) <= InBucket(size, ls, k, now, e)
  {
    DrainFitsHere(size, ls, k, now);
    var turned, es := Turned(size, ls, k, now), ls[k].slots[SlotIndex(now, ls[k].tick, size)];
    DrainHeldFrom(size, turned, es, now, |Drain(size, turned, es, now).levels| + |ls|, e);
  }

  // ---- What one tick takes from a level and puts back ----

  /** Copies of e that `advance` of level k, and of the levels above it, takes out of level j. */
  function Taken(size: nat, ls: Levels, k: nat, now: int, j: nat, e: Entry): nat
    requires Valid(size, ls) && k < |ls| && CaughtUp(ls, k, now)
    decreases |ls| - k
  {
    if now - ls[k].current < ls[k].tick then 0
    else
      var ms := Own(size, ls, k, now);
      (if j == k then InBucket(size, ls, k, now, e) else 0) +
      if k + 1 < |ms| && SlotIndex(now, ls[k].tick, size) == 0 then Taken(size, ms, k + 1, now, j, e) else 0
  }

  /** Those of them that go back into a bucket. */
  function PutBack(size: nat, ls: Levels, k: nat, now: int, j: nat, e: Entry): int
    requires Valid(size, ls) && k < |ls| && CaughtUp(ls, k, now)
    decreases |ls| - k
  {
    if now - ls[k].current < ls[k].tick then 0
    else
      var ms := Own(size, ls, k, now);
      (if j == k then InBucket(size, ls, k, now, e) - StartedBy(size, ls, k, now, e) else 0) +
      if k + 1 < |ms| && SlotIndex(now, ls[k].tick, size) == 0 then PutBack(size, ms, k + 1, now, j, e) else 0
  }

  /** A sweep of level k hands nothing to level k or above. */
  lemma OwnHeldFrom(size: nat, ls: Levels, k: nat, o: int, now: int, j: nat, e: Entry)
    requires Offered(size, ls, k, o, now) && now - ls[k].current >= ls[k].tick
    ensures HeldFrom(Own(size, ls, k, now), j, e) + (if j == k then InBucket(size, ls, k, now, e) else 0)
         <= HeldFrom(ls, j, e)
    ensures j == k ==> HeldFrom(Own(size, ls, k, now), k, e) + InBucket(size, ls, k, now, e) == HeldFrom(ls, k, e)
  {
    SweptTimed(size, ls, k, o, now);
    DrainFitsHere(size, ls, k, now);
    var i := SlotIndex(now, ls[k].tick, size);
    var turned, ms, es := Turned(size, ls, k, now), Own(size, ls, k, now), ls[k].slots[i];
    PutHeldFrom(ls, k, i, turned[k], [], j, e);
    if j >= k {
      SameFrom(turned, ms, k, j, e);
    } else {
      DrainHeldFrom(size, turned, es, now, j, e);
    }
  }

  lemma SameFrom(ls: Levels, ms: Levels, k: nat, j: nat, e: Entry)
    requires |ls| == |ms| && k <= j && forall h | k <= h < |ls| :: ms[h] == ls[h]
    ensures HeldFrom(ms, j, e) == HeldFrom(ls, j, e)
  {
    assert From(ms, j) == From(ls, j);
  }

  /** The root hands nothing down: what it sweeps starts. */
  lemma RootStartsAll(size: nat, ls: Levels, o: int, now: int, e: Entry)
    requires Offered(size, ls, 0, o, now) && now - ls[0].current >= ls[0].tick
    ensures StartedBy(size, ls, 0, now, e) == InBucket(size, ls, 0, now, e)
  {
    TurnedTimely(size, ls, 0, o, now);
    DrainFitsHere(size, ls, 0, now);
    DrainAllStarted(size, Turned(size, ls, 0, now), ls[0].slots[SlotIndex(now, ls[0].tick, size)], now);
  }

  predicate Carries(size: nat, ls: Levels, k: nat, now: int)
    requires k < |ls| && size > 0 && AllShaped(size, ls)
  {
    k + 1 < |ls| && SlotIndex(now, ls[k].tick, size) == 0
  }

  lemma AdvanceIsOwn(size: nat, ls: Levels, k: nat, now: int)
    requires Valid(size, ls) && k < |ls| && CaughtUp(ls, k, now) && now - ls[k].current >= ls[k].tick
    ensures var ms := Own(size, ls, k, now);
      AdvanceAt(size, ls, k, now).levels ==
        if Carries(size, ls, k, now) then AdvanceAt(size, ms, k + 1, now).levels else ms
  {
    DrainFitsHere(size, ls, k, now);
  }

  lemma {:induction false} AdvanceTaken(size: nat, ls: Levels, k: nat, o: int, now: int, j: nat, e: Entry)
    requires Offered(size, ls, k, o, now)
    ensures HeldFrom(AdvanceAt(size, ls, k, now).levels, j, e) + Taken(size, ls, k, now, j, e) <= HeldFrom(ls, j, e)
    decreases |ls| - k
  {
    if now - ls[k].current < ls[k].tick {
    } else {
      var ms := Own(size, ls, k, now);
      OwnSweep(size, ls, k, o, now);
      OwnHeldFrom(size, ls, k, o, now, j, e);
      AdvanceIsOwn(size, ls, k, now);
      if Carries(size, ls, k, now) {
        AdvanceTaken(size, ms, k + 1, o, now, j, e);
      }
    }
  }

  lemma {:induction false} AdvancePutBack(size: nat, ls: Levels, k: nat, o: int, now: int, j: nat, e: Entry)
    requires Offered(size, ls, k, o, now)
    ensures 0 <= PutBack(size, ls, k, now, j, e) <= Taken(size, ls, k, now, j, e)
    ensures j == 0 ==> PutBack(size, ls, k, now, j, e) == 0
    decreases |ls| - k
  {
    if now - ls[k].current < ls[k].tick {
    } else {
      OwnSweep(size, ls, k, o, now);
      StartedByBound(size, ls, k, now, e);
      if k == 0 { RootStartsAll(size, ls, o, now, e); }
      if Carries(size, ls, k, now) {
        AdvancePutBack(size, Own(size, ls, k, now), k + 1, o, now, j, e);
      }
    }
  }

  /** What leaves level k for good when nothing comes down on it: exactly the copies taken. */
  lemma TakenLeaves(size: nat, ls: Levels, k: nat, o: int, now: int, e: Entry)
    requires Offered(size, ls, k, o, now) && now - ls[k].current >= ls[k].tick && !Carries(size, ls, k, now)
    ensures HeldFrom(AdvanceAt(size, ls, k, now).levels, k, e) + Taken(size, ls, k, now, k, e) == HeldFrom(ls, k, e)
  {
    OwnHeldFrom(size, ls, k, o, now, k, e);
    AdvanceIsOwn(size, ls, k, now);
  }

  /** Over the first n levels: copies taken, less copies put back. */
  function NotPutBack(size: nat, ls: Levels, k: nat, now: int, n: nat, e: Entry): int
    requires Valid(size, ls) && k < |ls| && CaughtUp(ls, k, now)
  {
    if n == 0 then 0
    else
      NotPutBack(size, ls, k, now, n - 1, e) + Taken(size, ls, k, now, n - 1, e)
        - PutBack(size, ls, k, now, n - 1, e)
  }

  lemma {:induction false} NothingTaken(size: nat, ls: Levels, k: nat, now: int, n: nat, e: Entry)
    requires Valid(size, ls) && k < |ls| && CaughtUp(ls, k, now) && now - ls[k].current < ls[k].tick
    ensures NotPutBack(size, ls, k, now, n, e) == 0
    decreases n
  {
    if n == 0 {
    } else {
      NothingTaken(size, ls, k, now, n - 1, e);
    }
  }

  lemma {:induction false} OwnNotPutBack(size: nat, ls: Levels, k: nat, now: int, n: nat, e: Entry)
    requires Valid(size, ls) && k < |ls| && CaughtUp(ls, k, now) && now - ls[k].current >= ls[k].tick
    ensures NotPutBack(size, ls, k, now, n, e)
         == (if k < n then StartedBy(size, ls, k, now, e) else 0)
            + if Carries(size, ls, k, now) then NotPutBack(size, Own(size, ls, k, now), k + 1, now, n, e) else 0
    decreases n
  {
    if n == 0 {
    } else {
      OwnNotPutBack(size, ls, k, now, n - 1, e);
    }
  }

  /** One tick: of the copies that the sweeps take, exactly those are not put back that it starts. */
  lemma {:induction false} TakenAreStarted(size: nat, ls: Levels, k: nat, now: int, n: nat, e: Entry)
    requires Valid(size, ls) && k < |ls| <= n && CaughtUp(ls, k, now)
    ensures NotPutBack(size, ls, k, now, n, e) == AdvanceAt(size, ls, k, now).started[e]
    decreases |ls| - k
  {
    if now - ls[k].current < ls[k].tick {
      NothingTaken(size, ls, k, now, n, e);
    } else {
      OwnNotPutBack(size, ls, k, now, n, e);
      DrainFitsHere(size, ls, k, now);
      if Carries(size, ls, k, now) {
        TakenAreStarted(size, Own(size, ls, k, now), k + 1, now, n, e);
      }
    }
  }

  // ---- Whole runs ----

  /** Copies of e that the sweeps of level j take over a run. */
  function RunTaken(size: nat, s: State, ops: seq<Op>, j: nat, e: Entry): nat
    requires Valid(size, s.levels)
    decreases |ops|
  {
    if ops == [] then 0
    else
      StepKeeps(size, s, ops[0]);
      (if ops[0].Tick? then Taken(size, s.levels, 0, ops[0].now, j, e) else 0)
        + RunTaken(size, Step(size, s, ops[0]), ops[1..], j, e)
  }

  /** Those of them that go back into a bucket. */
  function RunPutBack(size: nat, s: State, ops: seq<Op>, j: nat, e: Entry): int
    requires Valid(size, s.levels)
    decreases |ops|
  {
    if ops == [] then 0
    else
      StepKeeps(size, s, ops[0]);
      (if ops[0].Tick? then PutBack(size, s.levels, 0, ops[0].now, j, e) else 0)
        + RunPutBack(size, Step(size, s, ops[0]), ops[1..], j, e)
  }

  /** Over a run and the first n levels: copies taken, less copies put back. */
  function RunNotPutBack(size: nat, s: State, ops: seq<Op>, n: nat, e: Entry): int
    requires Valid(size, s.levels)
  {
    if n == 0 then 0
    else
      RunNotPutBack(size, s, ops, n - 1, e) + RunTaken(size, s, ops, n - 1, e) - RunPutBack(size, s, ops, n - 1, e)
  }

  lemma {:induction false} FirstNotPutBack(size: nat, s: State, ops: seq<Op>, n: nat, e: Entry)
    requires Valid(size, s.levels)
    ensures ops == [] ==> RunNotPutBack(size, s, ops, n, e) == 0
    ensures ops != [] ==>
              && Valid(size, Step(size, s, ops[0]).levels)
              && RunNotPutBack(size, s, ops, n, e)
                   == (if ops[0].Tick? then NotPutBack(size, s.levels, 0, ops[0].now, n, e) else 0)
                      + RunNotPutBack(size, Step(size, s, ops[0]), ops[1..], n, e)
    decreases n
  {
    if ops != [] { StepKeeps(size, s, ops[0]); }
    if n == 0 {
    } else {
      FirstNotPutBack(size, s, ops, n - 1, e);
    }
  }

  /** What one step starts of a task that it does not give. */
  lemma StepStarts(size: nat, s: State, op: Op, n: nat, e: Entry)
    requires Valid(size, s.levels) && |s.levels| <= n && (op.After? ==> Task(op) != e)
    ensures Step(size, s, op).started[e]
         == s.started[e] + if op.Tick? then NotPutBack(size, s.levels, 0, op.now, n, e) else 0
  {
    if op.Tick? { TakenAreStarted(size, s.levels, 0, op.now, n, e); }
  }

  /**
   * Nothing is moved for nothing: over any run that does not give e, of the copies that the sweeps of all levels
   * take exactly those are not put back that the run starts.
   */
  lemma {:induction false} RunTakenAreStarted(size: nat, s: State, ops: seq<Op>, n: nat, e: Entry)
    requires Valid(size, s.levels) && forall i | 0 <= i < |ops| :: ops[i].After? ==> Task(ops[i]) != e
    requires |Run(size, s, ops).levels| <= n
    ensures RunNotPutBack(size, s, ops, n, e) + s.started[e] == Run(size, s, ops).started[e]
    decreases |ops|
  {
    FirstNotPutBack(size, s, ops, n, e);
    if ops == [] {
    } else {
      RunTicks(size, s, ops, |s.levels| - 1);
      StepStarts(size, s, ops[0], n, e);
      RunTakenAreStarted(size, Step(size, s, ops[0]), ops[1..], n, e);
    }
  }

  lemma StepTaken(size: nat, s: State, op: Op, j: nat, e: Entry)
    requires Timed(size, s.levels) && (op.Tick? ==> op.now == s.levels[0].current + s.levels[0].tick)
    requires op.After? ==> Task(op) != e
    ensures var taken := if op.Tick? then Taken(size, s.levels, 0, op.now, j, e) else 0;
      var back := if op.Tick? then PutBack(size, s.levels, 0, op.now, j, e) else 0;
      && HeldFrom(Step(size, s, op).levels, j, e) + taken <= HeldFrom(s.levels, j, e)
      && 0 <= back <= taken && (j == 0 ==> back == 0)
  {
    if op.Tick? {
      NextClock(size, s.levels, op.now);
      AdvanceTaken(size, s.levels, 0, Phase(s.levels), op.now, j, e);
      AdvancePutBack(size, s.levels, 0, Phase(s.levels), op.now, j, e);
    } else if op.delay > 0 {
      InsertHeldFrom(size, s.levels, 0, Task(op), j, e);
    }
  }

  lemma {:induction false} RunHandDown(size: nat, s: State, ops: seq<Op>, j: nat, e: Entry)
    requires Timed(size, s.levels) && OneTick(size, s, ops) && Run(size, s, ops).given[e] == s.given[e]
    ensures RunTaken(size, s, ops, j, e) <= HeldFrom(s.levels, j, e)
    ensures 0 <= RunPutBack(size, s, ops, j, e) <= RunTaken(size, s, ops, j, e)
    ensures j == 0 ==> RunPutBack(size, s, ops, j, e) == 0
    decreases |ops|
  {
    if ops == [] {
    } else {
      StepTimed(size, s, ops[0]);
      var t := Step(size, s, ops[0]);
      RunGiven(size, t, ops[1..], e);
      StepTaken(size, s, ops[0], j, e);
      RunHandDown(size, t, ops[1..], j, e);
    }
  }

  /** The level a new task lands on, if it is put in a bucket at all. */
  predicate Reaches(size: nat, s: State, op: Op, j: nat)
    requires Valid(size, s.levels) && op.After?
  {
    !InsertAt(size, s.levels, 0, Task(op)).started && j <= LandsOn(size, s.levels, 0, Task(op))
  }

  /**
   * Handed down once per level: of a task given once, level j sweeps the single copy at most once, and only if
   * the task landed on level j or above; and it puts it back at most once, the root never.
   */
  lemma OncePerLevel(size: nat, s: State, op: Op, ops: seq<Op>, j: nat)
    requires GivenOnce(size, s, op, ops)
    ensures RunTaken(size, Step(size, s, op), ops, j, Task(op)) <= if Reaches(size, s, op, j) then 1 else 0
    ensures 0 <= RunPutBack(size, Step(size, s, op), ops, j, Task(op))
         <= if j > 0 && Reaches(size, s, op, j) then 1 else 0
  {
    var e, s' := Task(op), Step(size, s, op);
    OnceStarts(size, s, op, ops);
    InsertHeldFrom(size, s.levels, 0, e, j, e);
    NoneHeld(s.levels, j, e);
    RunHandDown(size, s', ops, j, e);
  }

  lemma {:induction false} NoneHeld(ls: Levels, j: nat, e: Entry)
    requires Held(ls, e) == 0
    ensures HeldFrom(ls, j, e) == 0
  {
    if j == 0 || j > |ls| {
    } else {
      NoneHeld(ls[1..], j - 1, e);
      assert From(ls[1..], j - 1) == From(ls, j);
    }
  }

  /** The re-insertions by the first n levels over a run. */
  function Reinsertions(size: nat, s: State, ops: seq<Op>, n: nat, e: Entry): int
    requires Valid(size, s.levels)
  {
    if n == 0 then 0 else Reinsertions(size, s, ops, n - 1, e) + RunPutBack(size, s, ops, n - 1, e)
  }

  /** Every level's share is in the total. */
  lemma {:induction false} EachCounts(size: nat, s: State, ops: seq<Op>, n: nat, e: Entry, j: nat)
    requires Valid(size, s.levels) && j < n && forall i: nat | i < n :: RunPutBack(size, s, ops, i, e) >= 0
    ensures 0 <= RunPutBack(size, s, ops, j, e) <= Reinsertions(size, s, ops, n, e)
    decreases n
  {
    if n == 1 {
    } else if j == n - 1 {
      EachCounts(size, s, ops, n - 1, e, 0);
    } else {
      EachCounts(size, s, ops, n - 1, e, j);
    }
  }

  /** A task is put back into buckets at most as often as there are levels below the one it landed on. */
  lemma {:induction false} FewReinsertions(size: nat, s: State, op: Op, ops: seq<Op>, n: nat)
    requires GivenOnce(size, s, op, ops)
    ensures var total := Reinsertions(size, Step(size, s, op), ops, n, Task(op));
      && 0 <= total <= LandsOn(size, s.levels, 0, Task(op)) && total <= (if n > 0 then n - 1 else 0)
      && (InsertAt(size, s.levels, 0, Task(op)).started ==> total == 0)
  {
    if n == 0 {
    } else {
      FewReinsertions(size, s, op, ops, n - 1);
      OncePerLevel(size, s, op, ops, n - 1);
    }
  }
}
