/**
 * Root-level timeliness: with a power-of-two number of slots and accepted `now` values in consecutive
 * ticks, the root sweeps every entry exactly in the tick of its expire time, and fires it there.
 */
module TimeWheelRoot {
  import opened Arith
  import opened TimeWheel
  import opened TimeWheelSafety

  /** The tick an instant falls in. */
  function TickOf(t: int, l: Level): int
    requires l.tick > 0
  {
    t / l.tick
  }

  lemma SlotIs(t: int, l: Level, size: nat)
    requires t >= 0 && IsPow2Uint32(size) && l.tick > 0
    ensures size > 0 && SlotIndex(t, l.tick, size) == TickOf(t, l) % size
  {
    MaskedUint32(t / l.tick, size);
  }

  /** Every root entry belongs to a later tick than the root's clock, and to one of the next `size` ticks. */
  ghost predicate RootAhead(size: nat, ls: Levels)
    requires Valid(size, ls)
  {
    ls[0].current >= 0 && LevelAhead(ls[0], size)
  }

  ghost predicate LevelAhead(l: Level, size: nat)
    requires Shape(l, size)
  {
    forall i, e | 0 <= i < size && e in l.slots[i] :: AheadOf(l, e, size)
  }

  predicate AheadOf(l: Level, e: Entry, size: nat)
    requires l.tick > 0
  {
    TickOf(l.current, l) < TickOf(e.expire, l) <= TickOf(l.current, l) + size
  }

  lemma WithinSpan(l: Level, e: Entry, size: nat)
    requires l.tick > 0 && e.expire - l.current >= l.tick && e.expire < l.current + Span(l, size)
    ensures AheadOf(l, e, size)
  {
    DivAdd(l.current, l.tick, 1);
    DivMono(l.current + 1 * l.tick, e.expire, l.tick);
    DivAdd(l.current, l.tick, size);
    DivMono(e.expire, l.current + size * l.tick, l.tick);
  }

  /** Copies of e in the root. */
  function RootCopies(size: nat, ls: Levels, e: Entry): nat
    requires Valid(size, ls)
  {
    Copies(ls[0], size, e)
  }

  function Copies(l: Level, size: nat, e: Entry): nat
    requires size > 0 && Shape(l, size)
  {
    multiset(l.slots[SlotIndex(e.expire, l.tick, size)])[e]
  }

  lemma {:induction false} InsertAbove(size: nat, ls: Levels, k: nat, e: Entry)
    requires Valid(size, ls) && k < |ls|
    ensures |InsertAt(size, ls, k, e).levels| >= |ls|
    ensures forall i | 0 <= i < k :: InsertAt(size, ls, k, e).levels[i] == ls[i]
    decreases |ls| - k, Slack(ls[k], e)
  {
    var remaining := e.expire - ls[k].current;
    if remaining < ls[k].tick || remaining < Span(ls[k], size) {
    } else {
      NewLevelShape(ls[k], size);
      OverflowKeeps(size, ls, k);
      InsertAbove(size, WithOverflow(size, ls, k), k + 1, e);
    }
  }

  lemma PutHolds(l: Level, e: Entry, size: nat, i: nat, x: Entry)
    requires size > 0 && Shape(l, size) && i < size
    ensures x in Put(l, e, size).slots[i] ==> x == e || x in l.slots[i]
    ensures multiset(Put(l, e, size).slots[i])[x] >= multiset(l.slots[i])[x]
  {
  }

  lemma PutAhead(l: Level, e: Entry, size: nat, f: Entry)
    requires size > 0 && Shape(l, size) && LevelAhead(l, size) && AheadOf(l, e, size)
    ensures LevelAhead(Put(l, e, size), size) && Copies(Put(l, e, size), size, f) >= Copies(l, size, f)
  {
    var m := Put(l, e, size);
    forall i, x | 0 <= i < size && x in m.slots[i] ensures AheadOf(m, x, size) {
      PutHolds(l, e, size, i, x);
      assert AheadOf(l, x, size);
      assert m.tick == l.tick && m.current == l.current;
    }
    PutHolds(l, e, size, SlotIndex(f.expire, l.tick, size), f);
  }

  lemma SameRoot(size: nat, ls: Levels, ms: Levels, f: Entry)
    requires Valid(size, ls) && RootAhead(size, ls) && Valid(size, ms) && ms[0] == ls[0]
    ensures RootAhead(size, ms) && RootCopies(size, ms, f) == RootCopies(size, ls, f)
  {
  }

  lemma InsertRoot(size: nat, ls: Levels, e: Entry, f: Entry)
    requires Valid(size, ls) && RootAhead(size, ls)
    ensures var ms := InsertAt(size, ls, 0, e).levels;
            && Valid(size, ms) && RootAhead(size, ms) && RootCopies(size, ms, f) >= RootCopies(size, ls, f)
            && ms[0].current == ls[0].current && ms[0].tick == ls[0].tick
  {
    var remaining := e.expire - ls[0].current;
    if remaining < ls[0].tick {
    } else if remaining < Span(ls[0], size) {
      PutKeeps(size, ls, 0, e);
      WithinSpan(ls[0], e, size);
      PutAhead(ls[0], e, size, f);
    } else {
      InsertKeeps(size, ls, 0, e);
      OverflowKeeps(size, ls, 0);
      InsertAbove(size, WithOverflow(size, ls, 0), 1, e);
      SameRoot(size, ls, InsertAt(size, ls, 0, e).levels, f);
    }
  }

  lemma {:induction false} DrainRoot(size: nat, ls: Levels, es: seq<Entry>, now: int, f: Entry)
    requires Valid(size, ls) && RootAhead(size, ls)
    ensures var ms := Drain(size, ls, es, now).levels;
            && Valid(size, ms) && RootAhead(size, ms) && RootCopies(size, ms, f) >= RootCopies(size, ls, f)
            && ms[0].current == ls[0].current && ms[0].tick == ls[0].tick
    decreases |es|
  {
    if es == [] {
    } else {
      if es[0].expire <= now {
        DrainRoot(size, ls, es[1..], now, f);
      } else {
        InsertRoot(size, ls, es[0], f);
        DrainRoot(size, InsertAt(size, ls, 0, es[0]).levels, es[1..], now, f);
      }
    }
  }

  /** Sweeping an overflow level leaves what the root already holds. */
  lemma {:induction false} OverflowRoot(size: nat, ls: Levels, k: nat, now: int, f: Entry)
    requires Valid(size, ls) && 0 < k < |ls| && CaughtUp(ls, k, now) && RootAhead(size, ls)
    ensures var ms := AdvanceAt(size, ls, k, now).levels;
            && Valid(size, ms) && RootAhead(size, ms) && RootCopies(size, ms, f) >= RootCopies(size, ls, f)
            && ms[0].current == ls[0].current && ms[0].tick == ls[0].tick
    decreases |ls| - k
  {
    if now - ls[k].current < ls[k].tick {
    } else {
      DrainFitsHere(size, ls, k, now);
      var i := SlotIndex(now, ls[k].tick, size);
      var turned := Turned(size, ls, k, now);
      var r := Drain(size, turned, ls[k].slots[i], now);
      DrainRoot(size, turned, ls[k].slots[i], now, f);
      if k + 1 < |r.levels| && i == 0 {
        OverflowRoot(size, r.levels, k + 1, now, f);
      }
    }
  }

  /** Entries less than one root tick away are all started, and nothing else moves. */
  lemma {:induction false} DrainAllStarted(size: nat, ls: Levels, es: seq<Entry>, now: int)
    requires Valid(size, ls) && ls[0].current == now
    requires forall e | e in es :: e.expire - now < ls[0].tick
    ensures Drain(size, ls, es, now) == Swept(ls, multiset(es))
    decreases |es|
  {
    if es == [] {
    } else {
      assert es == [es[0]] + es[1..];
      DrainAllStarted(size, ls, es[1..], now);
    }
  }

  lemma TickNonneg(t: int, l: Level)
    requires l.tick > 0
    ensures t >= 0 <==> TickOf(t, l) >= 0
  {
    DivBounds(t, l.tick);
    if TickOf(t, l) >= 0 { MulMono(0, TickOf(t, l), l.tick); } else { MulMono(TickOf(t, l) + 1, 0, l.tick); }
  }

  lemma SameTickClose(t: int, now: int, l: Level)
    requires l.tick > 0 && TickOf(t, l) == TickOf(now, l)
    ensures t - now < l.tick
  {
    DivBounds(t, l.tick);
    DivBounds(now, l.tick);
    assert (TickOf(now, l) + 1) * l.tick == TickOf(now, l) * l.tick + l.tick;
  }

  /** The root slot of `now` holds exactly the entries of the tick of `now`. */
  lemma SweptTick(size: nat, l: Level, now: int, e: Entry)
    requires l.tick > 0 && l.current >= 0 && IsPow2Uint32(size)
    requires TickOf(now, l) == TickOf(l.current, l) + 1 && AheadOf(l, e, size)
    ensures now >= 0 && e.expire >= 0 && size > 0
    ensures SlotIndex(e.expire, l.tick, size) == SlotIndex(now, l.tick, size)
            <==> TickOf(e.expire, l) == TickOf(now, l)
    ensures TickOf(e.expire, l) == TickOf(now, l) ==> e.expire - now < l.tick
  {
    TickNonneg(l.current, l);
    TickNonneg(now, l);
    TickNonneg(e.expire, l);
    SlotIs(now, l, size);
    SlotIs(e.expire, l, size);
    if TickOf(e.expire, l) % size == TickOf(now, l) % size {
      SameResidue(TickOf(e.expire, l), TickOf(now, l), size);
    }
    if TickOf(e.expire, l) == TickOf(now, l) {
      SameTickClose(e.expire, now, l);
    }
  }

  /** One accepted sweep in the next tick: the entries of that tick fire, every other root entry stays. */
  lemma RootSweep(size: nat, ls: Levels, now: int, f: Entry)
    requires Valid(size, ls) && RootAhead(size, ls) && IsPow2Uint32(size)
    requires now - ls[0].current >= ls[0].tick && TickOf(now, ls[0]) == TickOf(ls[0].current, ls[0]) + 1
    ensures var r := AdvanceAt(size, ls, 0, now);
            && Valid(size, r.levels) && RootAhead(size, r.levels)
            && r.levels[0].tick == ls[0].tick && r.levels[0].current == now
            && (TickOf(f.expire, ls[0]) == TickOf(now, ls[0]) ==> r.started[f] >= RootCopies(size, ls, f))
            && (TickOf(f.expire, ls[0]) != TickOf(now, ls[0]) ==>
                  RootCopies(size, r.levels, f) >= RootCopies(size, ls, f))
  {
    var i := SlotIndex(now, ls[0].tick, size);
    var es := ls[0].slots[i];
    var turned := Turned(size, ls, 0, now);
    DrainFitsHere(size, ls, 0, now);
    forall e | e in es ensures e.expire - now < ls[0].tick {
      assert Housed(ls[0], size);
      SweptTick(size, ls[0], now, e);
    }
    DrainAllStarted(size, turned, es, now);
    TickNonneg(ls[0].current, ls[0]);
    TickNonneg(now, ls[0]);
    assert RootAhead(size, turned) by {
      forall j, e | 0 <= j < size && e in turned[0].slots[j] ensures AheadOf(turned[0], e, size) {
        assert Housed(ls[0], size);
        SweptTick(size, ls[0], now, e);
      }
    }
    if RootCopies(size, ls, f) > 0 {
      assert f in ls[0].slots[SlotIndex(f.expire, ls[0].tick, size)];
      SweptTick(size, ls[0], now, f);
    }
    if 1 < |turned| && i == 0 {
      OverflowRoot(size, turned, 1, now, f);
    }
  }

  /** Accepted ticks fall in consecutive root ticks; early (rejected) ones may come at any time. */
  ghost predicate Consecutive(size: nat, s: State, ops: seq<Op>)
    requires Valid(size, s.levels)
    decreases |ops|
  {
    ops == [] ||
    (StepKeeps(size, s, ops[0]);
     && (ops[0].Tick? && ops[0].now - s.levels[0].current >= s.levels[0].tick ==>
           TickOf(ops[0].now, s.levels[0]) == TickOf(s.levels[0].current, s.levels[0]) + 1)
     && Consecutive(size, Step(size, s, ops[0]), ops[1..]))
  }

  /**
   * Over every such run an entry of the root stays there until the root's clock reaches the tick of its
   * expire time, and has been started from then on; no root entry is ever overdue.
   */
  lemma {:induction false} RootTimely(size: nat, s: State, ops: seq<Op>, e: Entry)
    requires Valid(size, s.levels) && RootAhead(size, s.levels) && IsPow2Uint32(size) && Consecutive(size, s, ops)
    ensures var t := Run(size, s, ops);
            && Valid(size, t.levels) && RootAhead(size, t.levels) && t.levels[0].tick == s.levels[0].tick
            && t.levels[0].current >= s.levels[0].current
            && (if TickOf(t.levels[0].current, s.levels[0]) < TickOf(e.expire, s.levels[0])
                then RootCopies(size, t.levels, e) >= RootCopies(size, s.levels, e)
                else RootCopies(size, t.levels, e) == 0 && t.started[e] >= s.started[e] + RootCopies(size, s.levels, e))
    decreases |ops|
  {
    if RootCopies(size, s.levels, e) > 0 {
      assert e in s.levels[0].slots[SlotIndex(e.expire, s.levels[0].tick, size)];
      assert AheadOf(s.levels[0], e, size);
    }
    if ops == [] {
    } else {
      StepKeeps(size, s, ops[0]);
      var s' := Step(size, s, ops[0]);
      if ops[0].After? {
        InsertRoot(size, s.levels, Task(ops[0]), e);
      } else if ops[0].now - s.levels[0].current >= s.levels[0].tick {
        RootSweep(size, s.levels, ops[0].now, e);
      }
      RootTimely(size, s', ops[1..], e);
      var t := Run(size, s, ops);
      DivMono(s'.levels[0].current, t.levels[0].current, s.levels[0].tick);
    }
  }
}
