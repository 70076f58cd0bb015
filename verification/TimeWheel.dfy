/**
 * The hierarchical time wheel as functions on values (internal/timewheel/wheel.go).
 *
 * `Levels` is the chain root -> overflow -> overflow ...; index 0 is the root. A task is an `Entry`
 * whose `id` stands for its callback. Starting a task (`go fn()`) adds it to a multiset. `After` and
 * `advance` are atomic here. Durations and instants are unbounded nanosecond counts.
 */
module TimeWheel {
  import opened Arith

  datatype Entry = Entry(expire: int, id: nat)

  datatype Level = Level(tick: int, current: int, slots: seq<seq<Entry>>)

  type Levels = seq<Level>

  datatype Placed = Placed(levels: Levels, started: bool)

  datatype Swept = Swept(levels: Levels, started: multiset<Entry>)

  /** Slot of an instant: truncated division, truncation to uint32, mask. */
  function SlotIndex(t: int, tick: int, size: nat): (i: nat)
    requires tick > 0 && size > 0
    ensures i < size
  {
    And(Uint32(GoDiv(t, tick)), size - 1)
  }

  function Span(l: Level, size: nat): int {
    l.tick * size
  }

  predicate Shape(l: Level, size: nat) {
    l.tick > 0 && |l.slots| == size
  }

  function NewLevel(l: Level, size: nat): Level {
    Level(Span(l, size), l.current, seq(size, _ => []))
  }

  function Put(l: Level, e: Entry, size: nat): Level
    requires size > 0 && Shape(l, size)
  {
    var i := SlotIndex(e.expire, l.tick, size);
    l.(slots := l.slots[i := l.slots[i] + [e]])
  }

  ghost predicate AllShaped(size: nat, ls: Levels) {
    forall i | 0 <= i < |ls| :: Shape(ls[i], size)
  }

  function Slack(l: Level, e: Entry): nat {
    if e.expire - l.current > l.tick then e.expire - l.current - l.tick else 0
  }

  lemma NewLevelShape(l: Level, size: nat)
    requires size >= 2 && Shape(l, size)
    ensures Span(l, size) >= 2 * l.tick && Shape(NewLevel(l, size), size)
  {
    MulMono(2, size, l.tick);
  }

  /** One level of `insert`'s loop: fire, put in a slot, or hand on to the (lazily created) overflow level. */
  function InsertAt(size: nat, ls: Levels, k: nat, e: Entry): Placed
    requires size >= 2 && k < |ls| && AllShaped(size, ls)
    decreases |ls| - k, Slack(ls[k], e)
  {
    var remaining := e.expire - ls[k].current;
    if remaining < ls[k].tick then
      Placed(ls, true)
    else if remaining < Span(ls[k], size) then
      Placed(ls[k := Put(ls[k], e, size)], false)
    else
      NewLevelShape(ls[k], size);
      InsertAt(size, WithOverflow(size, ls, k), k + 1, e)
  }

  function WithOverflow(size: nat, ls: Levels, k: nat): (r: Levels)
    requires k < |ls|
    ensures k + 1 < |r|
  {
    if k + 1 < |ls| then ls else ls + [NewLevel(ls[k], size)]
  }

  // ---- The chain invariant ----

  /** `above` is the overflow level of `l`: its tick is l's span and its clock is not ahead. */
  predicate Linked(l: Level, above: Level, size: nat) {
    above.tick == Span(l, size) && above.current <= l.current
  }

  ghost predicate Chained(size: nat, ls: Levels) {
    forall i, j | 0 <= i && j == i + 1 < |ls| :: Linked(ls[i], ls[j], size)
  }

  /** Every entry sits in the slot of its own expire time, less than one span ahead of the level's clock. */
  ghost predicate Housed(l: Level, size: nat)
    requires size > 0 && Shape(l, size)
  {
    forall i, e | 0 <= i < size && e in l.slots[i] ::
      SlotIndex(e.expire, l.tick, size) == i && e.expire < l.current + Span(l, size)
  }

  ghost predicate Valid(size: nat, ls: Levels) {
    && size >= 2 && |ls| > 0 && AllShaped(size, ls) && Chained(size, ls)
    && forall i | 0 <= i < |ls| :: Housed(ls[i], size)
  }

  /** Same number of levels, same ticks, same clocks. */
  ghost predicate SameClocks(ls: Levels, ms: Levels) {
    && |ls| == |ms|
    && forall i | 0 <= i < |ls| :: ms[i].tick == ls[i].tick && ms[i].current == ls[i].current
  }

  lemma PutKeeps(size: nat, ls: Levels, k: nat, e: Entry)
    requires Valid(size, ls) && k < |ls| && e.expire < ls[k].current + Span(ls[k], size)
    ensures Valid(size, ls[k := Put(ls[k], e, size)])
    ensures SameClocks(ls, ls[k := Put(ls[k], e, size)])
  {
  }

  lemma OverflowKeeps(size: nat, ls: Levels, k: nat)
    requires Valid(size, ls) && k < |ls|
    ensures Valid(size, WithOverflow(size, ls, k))
  {
    NewLevelShape(ls[k], size);
  }

  lemma {:induction false} InsertKeeps(size: nat, ls: Levels, k: nat, e: Entry)
    requires Valid(size, ls) && k < |ls|
    ensures Valid(size, InsertAt(size, ls, k, e).levels)
    decreases |ls| - k, Slack(ls[k], e)
  {
    var remaining := e.expire - ls[k].current;
    if remaining < ls[k].tick {
    } else if remaining < Span(ls[k], size) {
      PutKeeps(size, ls, k, e);
    } else {
      OverflowKeeps(size, ls, k);
      NewLevelShape(ls[k], size);
      InsertKeeps(size, WithOverflow(size, ls, k), k + 1, e);
    }
  }

  /** An entry that fits some existing level creates none. */
  lemma {:induction false} InsertFits(size: nat, ls: Levels, k: nat, j: nat, e: Entry)
    requires Valid(size, ls) && k <= j < |ls| && e.expire < ls[j].current + Span(ls[j], size)
    ensures SameClocks(ls, InsertAt(size, ls, k, e).levels)
    ensures forall i | j < i < |ls| :: InsertAt(size, ls, k, e).levels[i] == ls[i]
    decreases j - k
  {
    var remaining := e.expire - ls[k].current;
    if remaining < ls[k].tick || remaining < Span(ls[k], size) {
    } else {
      assert k < j;
      InsertFits(size, ls, k + 1, j, e);
    }
  }

  // ---- advance ----

  /** `drain`: fire what is due, re-insert the rest at the root. */
  function Drain(size: nat, ls: Levels, es: seq<Entry>, now: int): Swept
    requires Valid(size, ls)
    decreases |es|
  {
    if es == [] then Swept(ls, multiset{})
    else if es[0].expire <= now then
      var r := Drain(size, ls, es[1..], now);
      r.(started := r.started + multiset{es[0]})
    else
      var p := InsertAt(size, ls, 0, es[0]);
      InsertKeeps(size, ls, 0, es[0]);
      var r := Drain(size, p.levels, es[1..], now);
      if p.started then r.(started := r.started + multiset{es[0]}) else r
  }

  /** The first k levels have already been moved to `now`. */
  ghost predicate CaughtUp(ls: Levels, k: nat, now: int) {
    forall j | 0 <= j < k && j < |ls| :: ls[j].current == now
  }

  lemma {:induction false} DrainKeeps(size: nat, ls: Levels, es: seq<Entry>, now: int, k: nat)
    requires Valid(size, ls) && k < |ls|
    requires forall e | e in es :: e.expire < ls[k].current + Span(ls[k], size)
    ensures Valid(size, Drain(size, ls, es, now).levels)
    ensures SameClocks(ls, Drain(size, ls, es, now).levels)
    ensures forall i | k < i < |ls| :: Drain(size, ls, es, now).levels[i] == ls[i]
    decreases |es|
  {
    if es == [] {
    } else if es[0].expire <= now {
      DrainKeeps(size, ls, es[1..], now, k);
    } else {
      var p := InsertAt(size, ls, 0, es[0]);
      InsertKeeps(size, ls, 0, es[0]);
      InsertFits(size, ls, 0, k, es[0]);
      DrainKeeps(size, p.levels, es[1..], now, k);
    }
  }

  /** Level k with its clock at `now` and the slot of `now` taken. */
  function Turned(size: nat, ls: Levels, k: nat, now: int): Levels
    requires size > 0 && k < |ls| && AllShaped(size, ls)
  {
    var i := SlotIndex(now, ls[k].tick, size);
    ls[k := Level(ls[k].tick, now, ls[k].slots[i := []])]
  }

  lemma TurnedKeeps(size: nat, ls: Levels, k: nat, now: int)
    requires Valid(size, ls) && k < |ls| && CaughtUp(ls, k, now) && ls[k].current <= now
    ensures Valid(size, Turned(size, ls, k, now)) && CaughtUp(Turned(size, ls, k, now), k + 1, now)
  {
    var ms := Turned(size, ls, k, now);
    forall i, j | 0 <= i && j == i + 1 < |ms| ensures Linked(ms[i], ms[j], size) {
      assert Linked(ls[i], ls[j], size);
    }
    assert Housed(ls[k], size);
  }

  function AdvanceAt(size: nat, ls: Levels, k: nat, now: int): Swept
    requires Valid(size, ls) && k < |ls| && CaughtUp(ls, k, now)
    decreases |ls| - k
  {
    if now - ls[k].current < ls[k].tick then
      Swept(ls, multiset{})
    else
      var i := SlotIndex(now, ls[k].tick, size);
      TurnedKeeps(size, ls, k, now);
      var turned := Turned(size, ls, k, now);
      DrainFitsHere(size, ls, k, now);
      var r := Drain(size, turned, ls[k].slots[i], now);
      if k + 1 < |r.levels| && i == 0 then
        var r' := AdvanceAt(size, r.levels, k + 1, now);
        r'.(started := r.started + r'.started)
      else r
  }

  /** What level k hands down fits level k, so sweeping it never lengthens the chain. */
  lemma DrainFitsHere(size: nat, ls: Levels, k: nat, now: int)
    requires Valid(size, ls) && k < |ls| && CaughtUp(ls, k, now) && now - ls[k].current >= ls[k].tick
    ensures var i := SlotIndex(now, ls[k].tick, size);
            var turned := Turned(size, ls, k, now);
            && Valid(size, turned)
            && (forall e | e in ls[k].slots[i] :: e.expire < now + Span(ls[k], size))
            && var r := Drain(size, turned, ls[k].slots[i], now);
               && Valid(size, r.levels) && SameClocks(turned, r.levels) && CaughtUp(r.levels, k + 1, now)
               && forall j | k < j < |ls| :: r.levels[j] == ls[j]
  {
    TurnedKeeps(size, ls, k, now);
    assert Housed(ls[k], size);
    DrainKeeps(size, Turned(size, ls, k, now), ls[k].slots[SlotIndex(now, ls[k].tick, size)], now, k);
  }

  /** No level comes or goes, no tick changes and no clock goes back. */
  ghost predicate Advances(ls: Levels, ms: Levels) {
    |ms| == |ls| && forall j | 0 <= j < |ls| :: ms[j].tick == ls[j].tick && ms[j].current >= ls[j].current
  }

  /** Level k's own sweep turns its clock to `now` and moves no other. */
  lemma SweptKeeps(size: nat, ls: Levels, k: nat, now: int)
    requires Valid(size, ls) && k < |ls| && CaughtUp(ls, k, now) && now - ls[k].current >= ls[k].tick
    ensures Valid(size, Turned(size, ls, k, now))
    ensures var ms := Drain(size, Turned(size, ls, k, now), ls[k].slots[SlotIndex(now, ls[k].tick, size)], now).levels;
            Valid(size, ms) && CaughtUp(ms, k + 1, now) && Advances(ls, ms)
  {
    DrainFitsHere(size, ls, k, now);
  }

  lemma {:induction false} AdvanceKeeps(size: nat, ls: Levels, k: nat, now: int)
    requires Valid(size, ls) && k < |ls| && CaughtUp(ls, k, now)
    ensures var r := AdvanceAt(size, ls, k, now);
            && Valid(size, r.levels) && CaughtUp(r.levels, k, now) && Advances(ls, r.levels)
    decreases |ls| - k
  {
    if now - ls[k].current < ls[k].tick {
    } else {
      SweptKeeps(size, ls, k, now);
      var i := SlotIndex(now, ls[k].tick, size);
      var r := Drain(size, Turned(size, ls, k, now), ls[k].slots[i], now);
      if k + 1 < |r.levels| && i == 0 {
        AdvanceKeeps(size, r.levels, k + 1, now);
      }
    }
  }
}
