/**
 * What the wheel promises for every driver schedule: no task is lost, duplicated or started early,
 * and `insert` terminates exactly when there are at least two slots.
 */
module TimeWheelSafety {
  import opened Arith
  import opened TimeWheel

  /** `atOnce` holds the tasks given with a delay of zero or less, which never enter the wheel. */
  datatype State = State(levels: Levels, given: multiset<Entry>, started: multiset<Entry>, atOnce: multiset<Entry>)

  datatype Op = After(at: int, delay: int, id: nat) | Tick(now: int)

  function Init(tick: int, size: nat, now: int): State {
    State([Level(tick, now, seq(size, _ => []))], multiset{}, multiset{}, multiset{})
  }

  function Task(op: Op): Entry
    requires op.After?
  {
    Entry(op.at + op.delay, op.id)
  }

  function Step(size: nat, s: State, op: Op): State
    requires Valid(size, s.levels)
  {
    match op
    case After(at, delay, id) =>
      var e := Task(op);
      var t := s.(given := s.given + multiset{e});
      if delay <= 0 then t.(atOnce := t.atOnce + multiset{e})
      else
        var p := InsertAt(size, s.levels, 0, e);
        if p.started then t.(levels := p.levels, started := t.started + multiset{e}) else t.(levels := p.levels)
    case Tick(now) =>
      var r := AdvanceAt(size, s.levels, 0, now);
      s.(levels := r.levels, started := s.started + r.started)
  }

  lemma StepKeeps(size: nat, s: State, op: Op)
    requires Valid(size, s.levels)
    ensures Valid(size, Step(size, s, op).levels)
  {
    if op.After? {
      InsertKeeps(size, s.levels, 0, Task(op));
    } else {
      AdvanceKeeps(size, s.levels, 0, op.now);
    }
  }

  function Run(size: nat, s: State, ops: seq<Op>): State
    requires Valid(size, s.levels)
    decreases |ops|
  {
    if ops == [] then s
    else
      StepKeeps(size, s, ops[0]);
      Run(size, Step(size, s, ops[0]), ops[1..])
  }

  // ---- What the buckets hold ----

  /** Copies of `e` in a list of buckets, and in all levels. */
  function HeldSlots(slots: seq<seq<Entry>>, e: Entry): nat {
    if slots == [] then 0 else multiset(slots[0])[e] + HeldSlots(slots[1..], e)
  }

  function Held(ls: Levels, e: Entry): nat {
    if ls == [] then 0 else HeldSlots(ls[0].slots, e) + Held(ls[1..], e)
  }

  lemma {:induction false} HeldSlotsUpdate(slots: seq<seq<Entry>>, i: nat, es: seq<Entry>, e: Entry)
    requires i < |slots|
    ensures HeldSlots(slots[i := es], e) == HeldSlots(slots, e) - multiset(slots[i])[e] + multiset(es)[e]
  {
    if i == 0 {
      assert slots[i := es][1..] == slots[1..];
    } else {
      HeldSlotsUpdate(slots[1..], i - 1, es, e);
      assert slots[i := es][1..] == slots[1..][i - 1 := es];
    }
  }

  lemma {:induction false} HeldUpdate(ls: Levels, k: nat, l: Level, e: Entry)
    requires k < |ls|
    ensures Held(ls[k := l], e) == Held(ls, e) - HeldSlots(ls[k].slots, e) + HeldSlots(l.slots, e)
  {
    if k == 0 {
      assert ls[k := l][1..] == ls[1..];
    } else {
      HeldUpdate(ls[1..], k - 1, l, e);
      assert ls[k := l][1..] == ls[1..][k - 1 := l];
    }
  }

  lemma {:induction false} HeldEmptySlots(slots: seq<seq<Entry>>, e: Entry)
    requires forall i | 0 <= i < |slots| :: slots[i] == []
    ensures HeldSlots(slots, e) == 0
  {
    if slots == [] {
    } else {
      HeldEmptySlots(slots[1..], e);
    }
  }

  lemma {:induction false} HeldAppend(ls: Levels, l: Level, e: Entry)
    ensures Held(ls + [l], e) == Held(ls, e) + HeldSlots(l.slots, e)
  {
    if ls == [] {
      assert (ls + [l])[1..] == [];
    } else {
      HeldAppend(ls[1..], l, e);
      assert (ls + [l])[1..] == ls[1..] + [l];
    }
  }

  /** Level k with a new clock and a new slot i. */
  lemma HeldSlotChange(ls: Levels, k: nat, i: nat, l: Level, es: seq<Entry>, e: Entry)
    requires k < |ls| && i < |ls[k].slots| && l.slots == ls[k].slots[i := es]
    ensures Held(ls[k := l], e) == Held(ls, e) - multiset(ls[k].slots[i])[e] + multiset(es)[e]
  {
    HeldUpdate(ls, k, l, e);
    HeldSlotsUpdate(ls[k].slots, i, es, e);
  }

  lemma {:induction false} InSlots(slots: seq<seq<Entry>>, i: nat, e: Entry)
    requires i < |slots| && e in slots[i]
    ensures HeldSlots(slots, e) >= 1
  {
    if i == 0 {
    } else {
      InSlots(slots[1..], i - 1, e);
    }
  }

  lemma {:induction false} InLevels(ls: Levels, k: nat, i: nat, e: Entry)
    requires k < |ls| && i < |ls[k].slots| && e in ls[k].slots[i]
    ensures Held(ls, e) >= 1
  {
    if k == 0 { InSlots(ls[0].slots, i, e); } else { InLevels(ls[1..], k - 1, i, e); }
  }

  // ---- Exactly-once conservation ----

  function One(b: bool): nat {
    if b then 1 else 0
  }

  lemma OverflowConserves(size: nat, ls: Levels, k: nat, f: Entry)
    requires k < |ls|
    ensures Held(WithOverflow(size, ls, k), f) == Held(ls, f)
  {
    HeldAppend(ls, NewLevel(ls[k], size), f);
    HeldEmptySlots(NewLevel(ls[k], size).slots, f);
  }

  lemma {:induction false} InsertConserves(size: nat, ls: Levels, k: nat, e: Entry, f: Entry)
    requires size >= 2 && k < |ls| && AllShaped(size, ls)
    ensures var p := InsertAt(size, ls, k, e);
            Held(p.levels, f) + One(p.started && e == f) == Held(ls, f) + One(e == f)
    decreases |ls| - k, Slack(ls[k], e)
  {
    var remaining := e.expire - ls[k].current;
    if remaining < ls[k].tick {
    } else if remaining < Span(ls[k], size) {
      var i := SlotIndex(e.expire, ls[k].tick, size);
      HeldSlotChange(ls, k, i, Put(ls[k], e, size), ls[k].slots[i] + [e], f);
    } else {
      NewLevelShape(ls[k], size);
      OverflowConserves(size, ls, k, f);
      InsertConserves(size, WithOverflow(size, ls, k), k + 1, e, f);
    }
  }

  lemma {:induction false} DrainConserves(size: nat, ls: Levels, es: seq<Entry>, now: int, f: Entry)
    requires Valid(size, ls)
    ensures var r := Drain(size, ls, es, now); Held(r.levels, f) + r.started[f] == Held(ls, f) + multiset(es)[f]
    decreases |es|
  {
    if es == [] {
    } else {
      assert es == [es[0]] + es[1..];
      if es[0].expire <= now {
        DrainConserves(size, ls, es[1..], now, f);
      } else {
        InsertKeeps(size, ls, 0, es[0]);
        InsertConserves(size, ls, 0, es[0], f);
        DrainConserves(size, InsertAt(size, ls, 0, es[0]).levels, es[1..], now, f);
      }
    }
  }

  lemma {:induction false} AdvanceConserves(size: nat, ls: Levels, k: nat, now: int, f: Entry)
    requires Valid(size, ls) && k < |ls| && CaughtUp(ls, k, now)
    ensures var r := AdvanceAt(size, ls, k, now); Held(r.levels, f) + r.started[f] == Held(ls, f)
    decreases |ls| - k
  {
    if now - ls[k].current < ls[k].tick {
    } else {
      DrainFitsHere(size, ls, k, now);
      var i := SlotIndex(now, ls[k].tick, size);
      var turned := Turned(size, ls, k, now);
      var r := Drain(size, turned, ls[k].slots[i], now);
      HeldSlotChange(ls, k, i, turned[k], [], f);
      DrainConserves(size, turned, ls[k].slots[i], now, f);
      if k + 1 < |r.levels| && i == 0 {
        AdvanceConserves(size, r.levels, k + 1, now, f);
      }
    }
  }

  /** Every copy of every task given is started, was run at once, or is held. */
  ghost predicate Conserved(s: State) {
    forall e :: s.given[e] == s.started[e] + s.atOnce[e] + Held(s.levels, e)
  }

  lemma StepConserves(size: nat, s: State, op: Op)
    requires Valid(size, s.levels) && Conserved(s)
    ensures Conserved(Step(size, s, op))
  {
    var t := Step(size, s, op);
    forall f ensures t.given[f] == t.started[f] + t.atOnce[f] + Held(t.levels, f) {
      if op.Tick? {
        AdvanceConserves(size, s.levels, 0, op.now, f);
      } else if op.delay > 0 {
        InsertConserves(size, s.levels, 0, Task(op), f);
      }
    }
  }

  lemma {:induction false} RunConserves(size: nat, s: State, ops: seq<Op>)
    requires Valid(size, s.levels) && Conserved(s)
    ensures Valid(size, Run(size, s, ops).levels) && Conserved(Run(size, s, ops))
    decreases |ops|
  {
    if ops == [] {
    } else {
      StepKeeps(size, s, ops[0]);
      StepConserves(size, s, ops[0]);
      RunConserves(size, Step(size, s, ops[0]), ops[1..]);
    }
  }

  lemma InitConserved(tick: int, size: nat, start: int)
    requires tick > 0 && size >= 2
    ensures Valid(size, Init(tick, size, start).levels) && Conserved(Init(tick, size, start))
  {
    var s := Init(tick, size, start);
    forall f ensures Held(s.levels, f) == 0 {
      HeldEmptySlots(s.levels[0].slots, f);
      assert s.levels[1..] == [];
    }
  }

  /** From a fresh wheel, whatever the driver does, each task given is started, run at once or held exactly once. */
  lemma ExactlyOnce(tick: int, size: nat, start: int, ops: seq<Op>, e: Entry)
    requires tick > 0 && size >= 2
    ensures Valid(size, Init(tick, size, start).levels)
    ensures var s := Run(size, Init(tick, size, start), ops);
            s.given[e] == s.started[e] + s.atOnce[e] + Held(s.levels, e)
  {
    InitConserved(tick, size, start);
    RunConserves(size, Init(tick, size, start), ops);
  }

  /** A task given once is never in two buckets, nor both held and started. */
  lemma NeverInTwoBuckets(size: nat, s: State, e: Entry, k: nat, i: nat, k': nat, i': nat)
    requires Conserved(s) && s.given[e] <= 1
    requires k < |s.levels| && i < |s.levels[k].slots| && e in s.levels[k].slots[i]
    requires k' < |s.levels| && i' < |s.levels[k'].slots| && e in s.levels[k'].slots[i']
    ensures k == k' && i == i' && multiset(s.levels[k].slots[i])[e] == 1 && e !in s.started && e !in s.atOnce
  {
    InLevels(s.levels, k, i, e);
    var l := s.levels[k].(slots := s.levels[k].slots[i := []]);
    HeldSlotChange(s.levels, k, i, l, [], e);
    if k != k' || i != i' {
      InLevels(s.levels[k := l], k', i', e);
    }
  }

  // ---- Never early ----

  /** `insert` starts a task at once exactly when less than one root tick is left; no overflow level ever starts one. */
  lemma {:induction false} StartedIff(size: nat, ls: Levels, k: nat, e: Entry)
    requires Valid(size, ls) && k < |ls| && (k > 0 ==> e.expire - ls[k].current >= ls[k].tick)
    ensures InsertAt(size, ls, k, e).started <==> k == 0 && e.expire - ls[0].current < ls[0].tick
    decreases |ls| - k, Slack(ls[k], e)
  {
    var remaining := e.expire - ls[k].current;
    if remaining < ls[k].tick || remaining < Span(ls[k], size) {
    } else {
      NewLevelShape(ls[k], size);
      OverflowKeeps(size, ls, k);
      var ms := WithOverflow(size, ls, k);
      assert Linked(ms[k], ms[k + 1], size);
      StartedIff(size, ms, k + 1, e);
    }
  }

  lemma InsertStartedIff(size: nat, ls: Levels, e: Entry)
    requires Valid(size, ls)
    ensures InsertAt(size, ls, 0, e).started <==> e.expire - ls[0].current < ls[0].tick
  {
    StartedIff(size, ls, 0, e);
  }

  ghost predicate NoneEarly(started: multiset<Entry>, root: Level) {
    forall e | e in started :: e.expire - root.current < root.tick
  }

  lemma {:induction false} DrainNotEarly(size: nat, ls: Levels, es: seq<Entry>, now: int, k: nat)
    requires Valid(size, ls) && k < |ls| && ls[0].current == now
    requires forall e | e in es :: e.expire < ls[k].current + Span(ls[k], size)
    ensures NoneEarly(Drain(size, ls, es, now).started, ls[0])
    decreases |es|
  {
    if es == [] {
    } else {
      if es[0].expire <= now {
        DrainNotEarly(size, ls, es[1..], now, k);
      } else {
        InsertKeeps(size, ls, 0, es[0]);
        InsertFits(size, ls, 0, k, es[0]);
        InsertStartedIff(size, ls, es[0]);
        DrainNotEarly(size, InsertAt(size, ls, 0, es[0]).levels, es[1..], now, k);
      }
    }
  }

  lemma {:induction false} AdvanceNotEarly(size: nat, ls: Levels, k: nat, now: int)
    requires Valid(size, ls) && k < |ls| && CaughtUp(ls, k, now)
    ensures Valid(size, AdvanceAt(size, ls, k, now).levels)
    ensures NoneEarly(AdvanceAt(size, ls, k, now).started, AdvanceAt(size, ls, k, now).levels[0])
    ensures k > 0 ==> AdvanceAt(size, ls, k, now).levels[0].current == now
    decreases |ls| - k
  {
    AdvanceKeeps(size, ls, k, now);
    if now - ls[k].current < ls[k].tick {
    } else {
      DrainFitsHere(size, ls, k, now);
      var i := SlotIndex(now, ls[k].tick, size);
      var turned := Turned(size, ls, k, now);
      var r := Drain(size, turned, ls[k].slots[i], now);
      DrainNotEarly(size, turned, ls[k].slots[i], now, k);
      if k + 1 < |r.levels| && i == 0 {
        AdvanceNotEarly(size, r.levels, k + 1, now);
        AdvanceKeeps(size, r.levels, k + 1, now);
      }
    }
  }

  lemma StepNotEarly(size: nat, s: State, op: Op)
    requires Valid(size, s.levels) && NoneEarly(s.started, s.levels[0])
    ensures Valid(size, Step(size, s, op).levels)
    ensures NoneEarly(Step(size, s, op).started, Step(size, s, op).levels[0])
    ensures Step(size, s, op).levels[0].tick == s.levels[0].tick
  {
    StepKeeps(size, s, op);
    if op.After? {
      if op.delay > 0 {
        InsertStartedIff(size, s.levels, Task(op));
        RootClockKept(size, s.levels, Task(op));
      }
    } else {
      AdvanceNotEarly(size, s.levels, 0, op.now);
      AdvanceKeeps(size, s.levels, 0, op.now);
    }
  }

  /** Inserting keeps every existing level's tick and clock. */
  lemma {:induction false} InsertClocks(size: nat, ls: Levels, k: nat, e: Entry)
    requires size >= 2 && k < |ls| && AllShaped(size, ls)
    ensures var ms := InsertAt(size, ls, k, e).levels;
            |ms| >= |ls| && forall i | 0 <= i < |ls| :: ms[i].tick == ls[i].tick && ms[i].current == ls[i].current
    decreases |ls| - k, Slack(ls[k], e)
  {
    var remaining := e.expire - ls[k].current;
    if remaining < ls[k].tick || remaining < Span(ls[k], size) {
    } else {
      NewLevelShape(ls[k], size);
      InsertClocks(size, WithOverflow(size, ls, k), k + 1, e);
    }
  }

  lemma RootClockKept(size: nat, ls: Levels, e: Entry)
    requires Valid(size, ls)
    ensures InsertAt(size, ls, 0, e).levels != []
    ensures InsertAt(size, ls, 0, e).levels[0].tick == ls[0].tick
    ensures InsertAt(size, ls, 0, e).levels[0].current == ls[0].current
  {
    InsertClocks(size, ls, 0, e);
  }

  /**
   * Never more than one root tick early: at every moment of every run, each task the wheel has started
   * expires less than one tick after the root's clock. Tasks started in the last step therefore met this at
   * their start.
   */
  lemma {:induction false} NeverEarly(size: nat, s: State, ops: seq<Op>)
    requires Valid(size, s.levels) && NoneEarly(s.started, s.levels[0])
    ensures var t := Run(size, s, ops); Valid(size, t.levels) && NoneEarly(t.started, t.levels[0])
    decreases |ops|
  {
    if ops == [] {
    } else {
      StepKeeps(size, s, ops[0]);
      StepNotEarly(size, s, ops[0]);
      NeverEarly(size, Step(size, s, ops[0]), ops[1..]);
    }
  }

  // ---- insert terminates exactly when size >= 2 ----

  datatype Loop = Going(levels: Levels, k: nat) | Done(result: Placed)

  /** The levels of a wheel with any number of slots; with none, the overflow levels have tick 0. */
  ghost predicate AllBuilt(size: nat, ls: Levels) {
    forall i | 0 <= i < |ls| :: |ls[i].slots| == size && if size > 0 then ls[i].tick > 0 else ls[i].tick >= 0
  }

  /** One iteration of the loop in `insert`, for any number of slots. */
  ghost function Iterate(size: nat, l: Loop, e: Entry): Loop
    requires l.Going? ==> l.k < |l.levels| && AllBuilt(size, l.levels)
  {
    match l
    case Done(_) => l
    case Going(ls, k) =>
      var remaining := e.expire - ls[k].current;
      if remaining < ls[k].tick then Done(Placed(ls, true))
      else if remaining < Span(ls[k], size) then Done(Placed(ls[k := Put(ls[k], e, size)], false))
      else Going(WithOverflow(size, ls, k), k + 1)
  }

  lemma IterateShaped(size: nat, l: Loop, e: Entry)
    requires l.Going? ==> l.k < |l.levels| && AllBuilt(size, l.levels)
    ensures var m := Iterate(size, l, e); m.Going? ==> m.k < |m.levels| && AllBuilt(size, m.levels)
  {
    if l.Going? && size > 0 {
      MulMono(1, size, l.levels[l.k].tick);
    }
  }

  ghost function Iterations(size: nat, l: Loop, e: Entry, n: nat): Loop
    requires l.Going? ==> l.k < |l.levels| && AllBuilt(size, l.levels)
    decreases n
  {
    if n == 0 then l
    else
      IterateShaped(size, l, e);
      Iterations(size, Iterate(size, l, e), e, n - 1)
  }

  lemma {:induction false} DoneStays(size: nat, p: Placed, e: Entry, n: nat)
    ensures Iterations(size, Done(p), e, n) == Done(p)
  {
    if n == 0 {
    } else {
      DoneStays(size, p, e, n - 1);
    }
  }

  /** With two or more slots the loop ends, with the result of `InsertAt`. */
  lemma {:induction false} InsertEnds(size: nat, ls: Levels, k: nat, e: Entry) returns (n: nat)
    requires size >= 2 && k < |ls| && AllShaped(size, ls)
    ensures Iterations(size, Going(ls, k), e, n) == Done(InsertAt(size, ls, k, e))
    decreases |ls| - k, Slack(ls[k], e)
  {
    var remaining := e.expire - ls[k].current;
    n := 1;
    if remaining >= Span(ls[k], size) && remaining >= ls[k].tick {
      NewLevelShape(ls[k], size);
      var m := InsertEnds(size, WithOverflow(size, ls, k), k + 1, e);
      n := m + 1;
    } else {
      assert Iterations(size, Iterate(size, Going(ls, k), e), e, 0) == Iterate(size, Going(ls, k), e);
    }
  }

  /** The overflow level of a wheel with at most one slot is no coarser, and its clock is not ahead. */
  lemma NextWheel(size: nat, ls: Levels, k: nat, e: Entry)
    requires size <= 1 && k < |ls| && AllBuilt(size, ls) && Chained(size, ls)
    requires e.expire - ls[k].current >= ls[k].tick
    ensures var ms := WithOverflow(size, ls, k);
            && AllBuilt(size, ms) && Chained(size, ms) && e.expire - ms[k + 1].current >= ms[k + 1].tick
            && Iterate(size, Going(ls, k), e) == Going(ms, k + 1)
  {
    var ms := WithOverflow(size, ls, k);
    assert Linked(ms[k], ms[k + 1], size);
  }

  /** With one slot every level has the root's tick and with none the others have tick 0: a task climbs for ever. */
  lemma {:induction false} NeverEnds(size: nat, ls: Levels, k: nat, e: Entry, n: nat)
    requires size <= 1 && k < |ls| && AllBuilt(size, ls) && Chained(size, ls)
    requires e.expire - ls[k].current >= ls[k].tick
    ensures Iterations(size, Going(ls, k), e, n).Going?
    decreases n
  {
    if n == 0 {
    } else {
      NextWheel(size, ls, k, e);
      NeverEnds(size, WithOverflow(size, ls, k), k + 1, e, n - 1);
    }
  }

  ghost predicate Ends(size: nat, ls: Levels, e: Entry)
    requires |ls| > 0 && AllBuilt(size, ls)
  {
    exists n: nat :: Iterations(size, Going(ls, 0), e, n).Done?
  }

  /** `insert` on a chain returns for every expire time exactly when the wheel has at least two slots. */
  lemma InsertTerminatesIff(size: nat, ls: Levels)
    requires |ls| > 0 && AllBuilt(size, ls) && Chained(size, ls)
    ensures size >= 2 <==> forall e :: Ends(size, ls, e)
  {
    if size >= 2 {
      forall e ensures Ends(size, ls, e) {
        var n := InsertEnds(size, ls, 0, e);
      }
    } else {
      var e := Entry(ls[0].current + ls[0].tick, 0);
      forall n: nat ensures !Iterations(size, Going(ls, 0), e, n).Done? {
        NeverEnds(size, ls, 0, e, n);
      }
      assert !Ends(size, ls, e);
    }
  }
}
