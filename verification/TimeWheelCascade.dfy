/**
 * Cascade timeliness, for a wheel started at any instant and a driver that moves by exactly one tick.
 *
 * The root's clock keeps its phase o = current % tick for ever, and a level's turn starts o after a multiple
 * of its tick: that is the level's grid. An overflow level created in the middle of its own turn copies a
 * clock that is off its grid; it then refuses the first turn it is offered, and an entry due in that turn
 * waits a whole revolution. `MissesTurn` is that case, decided from the state before `After`. Everything
 * else is started by the sweep of tick floor(expire / tick); the wheel then behaves like a plain list.
 */
module TimeWheelCascade {
  import opened Arith
  import opened TimeWheel
  import opened TimeWheelRoot

  /** How far the root's clock is into its tick; it never changes. */
  function Phase(ls: Levels): (o: int)
    requires |ls| > 0 && ls[0].tick > 0
    ensures 0 <= o < ls[0].tick
  {
    ls[0].current % ls[0].tick
  }

  /** The level's clock shows the start of a turn. */
  predicate Aligned(l: Level, o: int)
    requires l.tick > 0
  {
    (l.current - o) % l.tick == 0
  }

  /** The turn the level's clock shows. */
  function Turn(l: Level, o: int): int
    requires l.tick > 0
  {
    TickOf(l.current - o, l)
  }

  /** The turn of level l in which e should be swept comes after the level's clock and is not skipped. */
  predicate Prompt(l: Level, o: int, e: Entry)
    requires l.tick > 0
  {
    TickOf(e.expire, l) >= Turn(l, o) + (if Aligned(l, o) then 1 else 2)
  }

  /** The turn of e is the one that level l refuses, or has refused less than a revolution ago. */
  predicate Stuck(l: Level, size: nat, o: int, e: Entry)
    requires l.tick > 0
  {
    var q, f := TickOf(e.expire, l), Turn(l, o);
    if Aligned(l, o) then q < f < q + size else q == f + 1
  }

  ghost predicate Timely(l: Level, size: nat, o: int)
    requires Shape(l, size)
  {
    forall i, e | 0 <= i < size && e in l.slots[i] :: e.expire >= 0 && (Prompt(l, o, e) || Stuck(l, size, o, e))
  }

  /** Level l's clock when the root, of tick t, shows c: at the start of its turn, or still where it was created. */
  predicate InStep(l: Level, t: int, o: int, c: int)
    requires l.tick > 0 && t > 0
  {
    && 0 <= o <= l.current && (l.current - o) % t == 0
    && if Aligned(l, o) then l.current - o == TickOf(c - o, l) * l.tick
       else l.current <= c && c - o < (Turn(l, o) + 2) * l.tick
  }

  predicate Adjacent(l: Level, above: Level, o: int)
    requires l.tick > 0
  {
    !Aligned(l, o) ==> above.current == l.current
  }

  ghost predicate InStepFrom(size: nat, ls: Levels, k: nat, o: int, c: int)
    requires AllShaped(size, ls)
  {
    && (forall i | k <= i < |ls| :: InStep(ls[i], ls[0].tick, o, c))
    && (forall i, j | k <= i && j == i + 1 < |ls| :: Adjacent(ls[i], ls[j], o))
  }

  ghost predicate AllTimely(size: nat, ls: Levels, o: int)
    requires AllShaped(size, ls)
  {
    forall i | 0 <= i < |ls| :: Timely(ls[i], size, o)
  }

  /** The states the one-tick driver reaches. */
  ghost predicate Timed(size: nat, ls: Levels) {
    && Valid(size, ls) && IsPow2Uint32(size) && Aligned(ls[0], Phase(ls))
    && InStepFrom(size, ls, 0, Phase(ls), ls[0].current) && AllTimely(size, ls, Phase(ls))
  }

  ghost predicate StuckAt(size: nat, ls: Levels, k: nat, o: int, e: Entry)
    requires AllShaped(size, ls)
  {
    k < |ls| && (exists i :: 0 <= i < size && e in ls[k].slots[i]) && Stuck(ls[k], size, o, e)
  }

  ghost predicate StuckHeld(size: nat, ls: Levels, o: int, e: Entry)
    requires AllShaped(size, ls)
  {
    exists k: nat :: StuckAt(size, ls, k, o, e)
  }

  // ---- Ticks along the chain ----

  lemma {:induction false} TickMultiple(size: nat, ls: Levels, j: nat)
    requires Valid(size, ls) && j < |ls|
    ensures ls[j].tick % ls[0].tick == 0 && ls[j].tick >= ls[0].tick
  {
    if j == 0 {
      MulMod(1, ls[0].tick);
    } else {
      TickMultiple(size, ls, j - 1);
      assert Linked(ls[j - 1], ls[j], size);
      var t := ls[0].tick;
      var n := ls[j - 1].tick / t;
      DivMod(ls[j - 1].tick, t);
      assert ls[j].tick == (n * size) * t by {
        assert ls[j - 1].tick == n * t;
        assert (n * t) * size == (n * size) * t;
      }
      MulMod(n * size, t);
      NewLevelShape(ls[j - 1], size);
    }
  }

  /** Being off a level's grid means being off every coarser grid. */
  lemma {:induction false} OffGrid(size: nat, ls: Levels, k: nat, j: nat, x: int)
    requires Valid(size, ls) && k <= j < |ls| && x % ls[k].tick != 0
    ensures x % ls[j].tick != 0
    decreases j - k
  {
    if k == j {
    } else {
      assert Linked(ls[k], ls[k + 1], size);
      NestedDiv(x, ls[k].tick, size);
      OffGrid(size, ls, k + 1, j, x);
    }
  }

  lemma {:induction false} OnGrid(size: nat, ls: Levels, k: nat, j: nat, x: int)
    requires Valid(size, ls) && j <= k < |ls| && x % ls[k].tick == 0
    ensures x % ls[j].tick == 0
    decreases k - j
  {
    if j == k {
    } else {
      assert Linked(ls[k - 1], ls[k], size);
      NestedDiv(x, ls[k - 1].tick, size);
      OnGrid(size, ls, k - 1, j, x);
    }
  }

  /** A full tick passes without touching the grid of a level that is a multiple of it. */
  lemma NextGridPoint(x: int, t: int, big: int, q: int)
    requires t > 0 && big > 0 && big % t == 0 && x % t == 0
    ensures x < q * big ==> x + t <= q * big
    ensures x + t > q * big ==> x >= q * big
  {
    DivMod(big, t);
    DivMod(x, t);
    var g := q * (big / t);
    assert g * t == q * big by {
      assert q * ((big / t) * t) == (q * (big / t)) * t;
    }
    var p := x / t;
    assert x == p * t;
    if x < q * big {
      if p >= g { MulMono(g, p, t); }
      MulMono(p + 1, g, t);
      assert (p + 1) * t == p * t + t;
    } else {
    }
  }

  /** The clock condition of a level whose grid the step does not touch. */
  lemma InStepUntouched(l: Level, t: int, o: int, now: int)
    requires l.tick > 0 && t > 0 && l.tick % t == 0 && (now - o) % t == 0
    requires InStep(l, t, o, now - t) && (now - o) % l.tick != 0
    ensures InStep(l, t, o, now)
  {
    var c, x := now - t - o, now - o;
    DivAdd(x, t, -1);
    assert c == x + (-1) * t;
    if Aligned(l, o) {
      var q := TickOf(c, l);
      DivBounds(c, l.tick);
      NextGridPoint(c, t, l.tick, q + 1);
      if x == (q + 1) * l.tick { MulMod(q + 1, l.tick); }
      DivUnique(x, l.tick, q);
    } else {
      var q := Turn(l, o) + 2;
      NextGridPoint(c, t, l.tick, q);
      if x == q * l.tick { MulMod(q, l.tick); }
    }
  }

  lemma InStepAbove(size: nat, ls: Levels, k: nat, o: int, now: int)
    requires Valid(size, ls) && k <= |ls| && InStepFrom(size, ls, k, o, now - ls[0].tick)
    requires (now - o) % ls[0].tick == 0 && (k < |ls| ==> (now - o) % ls[k].tick != 0)
    ensures InStepFrom(size, ls, k, o, now)
  {
    forall i | k <= i < |ls| ensures InStep(ls[i], ls[0].tick, o, now) {
      OffGrid(size, ls, k, i, now - o);
      TickMultiple(size, ls, i);
      InStepUntouched(ls[i], ls[0].tick, o, now);
    }
  }

  /** A level created in mid-turn refuses the first turn offered; so do all coarser ones, which carry the same clock. */
  lemma {:induction false} SameClockAbove(size: nat, ls: Levels, k: nat, j: nat, o: int, c: int)
    requires Valid(size, ls) && k <= j < |ls| && InStepFrom(size, ls, k, o, c) && !Aligned(ls[k], o)
    ensures ls[j].current == ls[k].current && !Aligned(ls[j], o) && ls[j].tick >= ls[k].tick
    decreases j - k
  {
    if k == j {
    } else {
      assert Adjacent(ls[k], ls[k + 1], o) && Linked(ls[k], ls[k + 1], size);
      NestedDiv(ls[k].current - o, ls[k].tick, size);
      NewLevelShape(ls[k], size);
      SameClockAbove(size, ls, k + 1, j, o, c);
    }
  }

  lemma InStepRefused(size: nat, ls: Levels, k: nat, o: int, now: int)
    requires Valid(size, ls) && k < |ls| && InStepFrom(size, ls, k, o, now - ls[0].tick)
    requires now - ls[k].current < ls[k].tick && !Aligned(ls[k], o)
    ensures InStepFrom(size, ls, k, o, now)
  {
    forall i | k <= i < |ls| ensures InStep(ls[i], ls[0].tick, o, now) {
      SameClockAbove(size, ls, k, i, o, now - ls[0].tick);
      var l := ls[i];
      DivBounds(l.current - o, l.tick);
      assert (Turn(l, o) + 2) * l.tick == (Turn(l, o) + 1) * l.tick + l.tick;
    }
  }

  // ---- One level accepts a turn ----

  lemma FineGrid(now: int, t: int, big: int)
    requires t > 0 && big > 0 && big % t == 0 && now % big == 0
    ensures now % t == 0 && (now - t) % t == 0
  {
    DivMod(now, big);
    DivMod(big, t);
    assert (now / big) * ((big / t) * t) == ((now / big) * (big / t)) * t;
    MulMod((now / big) * (big / t), t);
    DivAdd(now, t, -1);
    assert now + (-1) * t == now - t;
  }

  lemma NextTurnOnGrid(big: int, t: int, now: int, f: int)
    requires t > 0 && big > 0 && big % t == 0 && now % big == 0
    requires (now - t) / big == f && now - f * big >= big
    ensures now / big == f + 1 && now == (f + 1) * big
  {
    FineGrid(now, t, big);
    DivBounds(now - t, big);
    NextGridPoint(now - t, t, big, f + 1);
    assert (f + 1) * big == f * big + big;
    MulMod(f + 1, big);
  }

  lemma SecondTurnOnGrid(big: int, t: int, now: int, current: int)
    requires t > 0 && big > 0 && big % t == 0 && now % big == 0 && current % big != 0
    requires now - t < (current / big + 2) * big && now - current >= big
    ensures now / big == current / big + 2 && now == (current / big + 2) * big
  {
    var f, n := current / big, now / big;
    FineGrid(now, t, big);
    NextGridPoint(now - t, t, big, f + 2);
    DivMod(current, big);
    DivMod(now, big);
    assert (f + 2) * big == (f + 1) * big + big;
    assert (f + 1) * big == f * big + big;
    if n <= f + 1 { MulMono(n, f + 1, big); }
    assert (f + 3) * big == (f + 2) * big + big;
    if n >= f + 3 { MulMono(f + 3, n, big); }
  }

  /** When a level accepts the turn `now` on its grid, its clock jumps by one turn, or by two if it was off its grid. */
  lemma AcceptedTurn(l: Level, t: int, o: int, now: int)
    requires l.tick > 0 && t > 0 && l.tick % t == 0 && (now - o) % l.tick == 0
    requires InStep(l, t, o, now - t) && now - l.current >= l.tick
    ensures TickOf(now - o, l) == Turn(l, o) + (if Aligned(l, o) then 1 else 2)
    ensures now - o == TickOf(now - o, l) * l.tick && now - o >= 0
  {
    if Aligned(l, o) {
      var f := TickOf(now - o - t, l);
      MulMod(f, l.tick);
      NextTurnOnGrid(l.tick, t, now - o, f);
    } else {
      SecondTurnOnGrid(l.tick, t, now - o, l.current - o);
    }
  }

  /** A whole number of root ticks and the phase stay within one turn. */
  lemma WithinTurn(x: int, t: int, big: int, o: int)
    requires t > 0 && big > 0 && big % t == 0 && x % t == 0 && 0 <= o < t
    ensures (x + o) / big == x / big
  {
    DivBounds(x, big);
    NextGridPoint(x, t, big, x / big + 1);
    DivUnique(x + o, big, x / big);
  }

  /** Turn numbers of a timely entry relative to the level's clock. */
  lemma TurnWindow(l: Level, size: nat, t: int, o: int, e: Entry)
    requires l.tick > 0 && size >= 2 && e.expire < l.current + Span(l, size)
    requires t > 0 && l.tick % t == 0 && 0 <= o < t && (l.current - o) % t == 0
    requires Prompt(l, o, e) || Stuck(l, size, o, e)
    ensures var q, f := TickOf(e.expire, l), Turn(l, o); f - size < q <= f + size && q != f
  {
    WithinTurn(l.current - o, t, l.tick, o);
    DivAdd(l.current, l.tick, size);
    DivMono(e.expire, l.current + size * l.tick, l.tick);
  }

  lemma ResidueWindow(q: int, n: int, size: nat)
    requires size > 0 && n - size <= q < n + size
    ensures q % size == n % size <==> q == n || q == n - size
  {
    DivAdd(n, size, -1);
    assert n + (-1) * size == n - size;
    if q % size == n % size && q != n - size { SameResidue(q, n, size); }
  }

  lemma ExpiresBefore(e: Entry, tick: int, n: int)
    requires tick > 0 && e.expire / tick <= n
    ensures e.expire < n * tick + tick
  {
    DivBounds(e.expire, tick);
    MulMono(e.expire / tick + 1, n + 1, tick);
    assert (n + 1) * tick == n * tick + tick;
  }

  /**
   * What happens to one entry of level l when the level accepts `now`: in the slot of `now` it is less than
   * a turn away; elsewhere it keeps its class, except that nothing becomes stuck that was not.
   */
  lemma EntryTurns(l: Level, m: Level, size: nat, t: int, o: int, now: int, e: Entry)
    requires Shape(l, size) && size >= 2 && IsPow2Uint32(size)
    requires 0 <= o < t <= l.tick && l.tick % t == 0 && (now - o) % l.tick == 0
    requires InStep(l, t, o, now - t) && now - l.current >= l.tick
    requires m.tick == l.tick && m.current == now
    requires e.expire >= 0 && e.expire < l.current + Span(l, size) && (Prompt(l, o, e) || Stuck(l, size, o, e))
    ensures now >= 0
    ensures SlotIndex(e.expire, l.tick, size) == SlotIndex(now, l.tick, size) ==> e.expire < now + l.tick
    ensures SlotIndex(e.expire, l.tick, size) != SlotIndex(now, l.tick, size)
            ==> (Prompt(l, o, e) ==> Prompt(m, o, e)) && (Stuck(l, size, o, e) ==> Stuck(m, size, o, e))
    ensures Stuck(l, size, o, e) && now - o < (TickOf(e.expire, l) + size) * l.tick
            ==> SlotIndex(e.expire, l.tick, size) != SlotIndex(now, l.tick, size)
    ensures !(Prompt(l, o, e) && Stuck(l, size, o, e))
  {
    AcceptedTurn(l, t, o, now);
    TurnWindow(l, size, t, o, e);
    TurnSlot(l, size, t, o, now);
    SlotIs(e.expire, l, size);
    assert Aligned(m, o) by { assert (m.current - o) % m.tick == 0; }
    var q, n := TickOf(e.expire, l), TickOf(now - o, l);
    ResidueWindow(q, n, size);
    if q <= n { ExpiresBefore(e, l.tick, n); }
    if q + size == n { assert now - o == (q + size) * l.tick; }
  }

  /** The slot swept at the start of a turn is that of the turn's number. */
  lemma TurnSlot(l: Level, size: nat, t: int, o: int, now: int)
    requires l.tick > 0 && IsPow2Uint32(size) && t > 0 && l.tick % t == 0 && 0 <= o < t <= l.tick
    requires (now - o) % l.tick == 0 && now >= 0
    ensures size > 0 && SlotIndex(now, l.tick, size) == TickOf(now - o, l) % size
  {
    SlotIs(now, l, size);
    DivMod(now - o, l.tick);
    var n := TickOf(now - o, l);
    assert (n + 1) * l.tick == n * l.tick + l.tick;
    DivUnique(now, l.tick, n);
  }

  // ---- insert ----

  ghost predicate SameStuck(size: nat, ls: Levels, ms: Levels, o: int)
    requires AllShaped(size, ls) && AllShaped(size, ms)
  {
    forall k: nat, e :: StuckAt(size, ms, k, o, e) <==> StuckAt(size, ls, k, o, e)
  }

  /** A new entry at least a tick away comes in a later turn; it is prompt unless that turn will be refused. */
  lemma Classified(l: Level, size: nat, o: int, e: Entry)
    requires l.tick > 0 && o >= 0 && e.expire - l.current >= l.tick
    ensures TickOf(e.expire, l) >= Turn(l, o) + 1
    ensures !Prompt(l, o, e) <==> !Aligned(l, o) && TickOf(e.expire, l) == Turn(l, o) + 1
    ensures Stuck(l, size, o, e) <==> !Prompt(l, o, e)
  {
    DivAdd(l.current - o, l.tick, 1);
    DivMono(l.current - o + 1 * l.tick, e.expire, l.tick);
  }

  lemma PutTimely(l: Level, size: nat, o: int, e: Entry)
    requires size > 0 && Shape(l, size) && Timely(l, size, o) && o >= 0
    requires e.expire - l.current >= l.tick && e.expire >= 0
    ensures Timely(Put(l, e, size), size, o)
  {
    var m := Put(l, e, size);
    Classified(l, size, o, e);
    forall i, x | 0 <= i < size && x in m.slots[i] ensures x.expire >= 0 && (Prompt(m, o, x) || Stuck(m, size, o, x)) {
      PutHolds(l, e, size, i, x);
      assert m.tick == l.tick && m.current == l.current;
      assert Prompt(l, o, x) || Stuck(l, size, o, x);
    }
  }

  lemma PutStuck(size: nat, ls: Levels, o: int, k: nat, e: Entry, j: nat, x: Entry)
    requires Valid(size, ls) && k < |ls| && AllShaped(size, ls[k := Put(ls[k], e, size)])
    ensures StuckAt(size, ls[k := Put(ls[k], e, size)], j, o, x)
            <==> StuckAt(size, ls, j, o, x) || (j == k && x == e && Stuck(ls[k], size, o, e))
  {
    var m := Put(ls[k], e, size);
    if j == k {
      if i :| 0 <= i < size && x in m.slots[i] && x != e { assert x in ls[k].slots[i]; }
      if i :| 0 <= i < size && x in ls[k].slots[i] { assert x in m.slots[i]; }
      if x == e { assert x in m.slots[SlotIndex(e.expire, m.tick, size)]; }
      assert Stuck(m, size, o, x) == Stuck(ls[k], size, o, x);
    }
  }

  /** Where `insert` puts an entry that is at least a tick away: the index of the level and the level as it was. */
  function Place(size: nat, ls: Levels, k: nat, e: Entry): (r: (nat, Level))
    requires size >= 2 && k < |ls| && AllShaped(size, ls)
    ensures r.0 >= k
    decreases |ls| - k, Slack(ls[k], e)
  {
    if e.expire - ls[k].current < Span(ls[k], size) then (k, ls[k])
    else
      NewLevelShape(ls[k], size);
      Place(size, WithOverflow(size, ls, k), k + 1, e)
  }

  function Landing(size: nat, ls: Levels, k: nat, e: Entry): Level
    requires size >= 2 && k < |ls| && AllShaped(size, ls)
  {
    Place(size, ls, k, e).1
  }

  function LandsOn(size: nat, ls: Levels, k: nat, e: Entry): nat
    requires size >= 2 && k < |ls| && AllShaped(size, ls)
  {
    Place(size, ls, k, e).0
  }

  /** Decided before the call: the entry lands on a level that is off its grid, in the turn that level will refuse. */
  predicate MissesTurn(size: nat, ls: Levels, e: Entry)
    requires size >= 2 && |ls| > 0 && AllShaped(size, ls)
  {
    var l, o := Landing(size, ls, 0, e), Phase(ls);
    && e.expire - ls[0].current >= ls[0].tick
    && l.tick > 0 && !Aligned(l, o) && TickOf(e.expire, l) == Turn(l, o) + 1
  }

  /** The effect of inserting an entry at least a tick away, seen from level k up. */
  ghost predicate Inserted(size: nat, ls: Levels, ms: Levels, e: Entry, l: Level, o: int)
    requires AllShaped(size, ls) && AllShaped(size, ms) && l.tick > 0
  {
    && |ls| <= |ms|
    && (forall j: nat, x | x != e :: StuckAt(size, ms, j, o, x) <==> StuckAt(size, ls, j, o, x))
    && (forall j: nat :: StuckAt(size, ls, j, o, e) ==> StuckAt(size, ms, j, o, e))
    && (Stuck(l, size, o, e) ==> exists j: nat :: StuckAt(size, ms, j, o, e) && ms[j].tick == l.tick)
    && (!Stuck(l, size, o, e) ==> forall j: nat :: StuckAt(size, ms, j, o, e) ==> StuckAt(size, ls, j, o, e))
  }

  lemma OverflowTimed(size: nat, ls: Levels, k: nat, o: int, c: int)
    requires Valid(size, ls) && k < |ls| && InStepFrom(size, ls, 0, o, c) && AllTimely(size, ls, o)
    ensures var ms := WithOverflow(size, ls, k);
            Valid(size, ms) && InStepFrom(size, ms, 0, o, c) && AllTimely(size, ms, o) && SameStuck(size, ls, ms, o)
  {
    OverflowKeeps(size, ls, k);
    if k + 1 == |ls| {
      NewLevelInStep(ls[k], size, ls[0].tick, o, c);
      var ms := WithOverflow(size, ls, k);
      forall j: nat, e ensures StuckAt(size, ms, j, o, e) <==> StuckAt(size, ls, j, o, e) {
        if j < |ls| { assert ms[j] == ls[j]; }
      }
    }
  }

  lemma NewLevelInStep(l: Level, size: nat, t: int, o: int, c: int)
    requires size >= 2 && Shape(l, size) && t > 0 && InStep(l, t, o, c)
    ensures Shape(NewLevel(l, size), size) && InStep(NewLevel(l, size), t, o, c)
  {
    NewLevelShape(l, size);
    var m, x := NewLevel(l, size), l.current - o;
    NestedDiv(x, l.tick, size);
    DivBounds(c - o, l.tick);
    var f := Turn(l, o);
    DivMod(x, l.tick);
    DivMod(x, m.tick);
    var g := Turn(m, o);
    assert (f + 2) * l.tick == f * l.tick + 2 * l.tick;
    assert (g + 2) * m.tick == g * m.tick + 2 * m.tick;
    assert (TickOf(c - o, l) + 1) * l.tick == TickOf(c - o, l) * l.tick + l.tick;
    if Aligned(m, o) {
      assert (g + 1) * m.tick == g * m.tick + m.tick;
      DivUnique(c - o, m.tick, g);
    }
  }

  /** The level that e fits takes it. */
  lemma PutKeepsTimed(size: nat, ls: Levels, k: nat, e: Entry, o: int, c: int)
    requires Valid(size, ls) && k < |ls| && InStepFrom(size, ls, 0, o, c) && AllTimely(size, ls, o)
    requires e.expire - ls[k].current >= ls[k].tick && e.expire >= 0 && o >= 0
    requires e.expire - ls[k].current < Span(ls[k], size)
    ensures var ms := ls[k := Put(ls[k], e, size)];
            Valid(size, ms) && InStepFrom(size, ms, 0, o, c) && AllTimely(size, ms, o)
            && Inserted(size, ls, ms, e, ls[k], o)
  {
    var ms := ls[k := Put(ls[k], e, size)];
    PutKeeps(size, ls, k, e);
    PutTimely(ls[k], size, o, e);
    PutInStep(size, ls, o, k, e, c);
    forall j: nat, x
      ensures StuckAt(size, ms, j, o, x) <==>
        StuckAt(size, ls, j, o, x) || (j == k && x == e && Stuck(ls[k], size, o, e))
    {
      PutStuck(size, ls, o, k, e, j, x);
    }
    if Stuck(ls[k], size, o, e) { assert StuckAt(size, ms, k, o, e); }
  }

  lemma {:induction false} InsertTimed(size: nat, ls: Levels, k: nat, e: Entry, o: int, c: int)
    requires Valid(size, ls) && k < |ls| && InStepFrom(size, ls, 0, o, c) && AllTimely(size, ls, o)
    requires e.expire - ls[k].current >= ls[k].tick && e.expire >= 0 && o >= 0
    ensures var p := InsertAt(size, ls, k, e);
            && !p.started && Valid(size, p.levels)
            && InStepFrom(size, p.levels, 0, o, c) && AllTimely(size, p.levels, o)
            && Landing(size, ls, k, e).tick > 0
            && e.expire - Landing(size, ls, k, e).current >= Landing(size, ls, k, e).tick
            && Inserted(size, ls, p.levels, e, Landing(size, ls, k, e), o)
    decreases |ls| - k, Slack(ls[k], e)
  {
    InsertKeeps(size, ls, k, e);
    if e.expire - ls[k].current < Span(ls[k], size) {
      PutKeepsTimed(size, ls, k, e, o, c);
    } else {
      NewLevelShape(ls[k], size);
      OverflowTimed(size, ls, k, o, c);
      var ms := WithOverflow(size, ls, k);
      assert Linked(ms[k], ms[k + 1], size);
      InsertTimed(size, ms, k + 1, e, o, c);
    }
  }

  lemma PutInStep(size: nat, ls: Levels, o: int, k: nat, e: Entry, c: int)
    requires Valid(size, ls) && k < |ls| && InStepFrom(size, ls, 0, o, c)
    requires AllShaped(size, ls[k := Put(ls[k], e, size)])
    ensures InStepFrom(size, ls[k := Put(ls[k], e, size)], 0, o, c)
  {
    var ms := ls[k := Put(ls[k], e, size)];
    forall i, j | 0 <= i && j == i + 1 < |ms| ensures Adjacent(ms[i], ms[j], o) {
      assert Adjacent(ls[i], ls[j], o);
    }
  }

  /** An entry that fits level j is handed down to j or below, and becomes prompt there if they are on their grids. */
  lemma {:induction false} HandedDown(size: nat, ls: Levels, k: nat, j: nat, o: int, e: Entry)
    requires Valid(size, ls) && k <= j < |ls| && AllTimely(size, ls, o) && e.expire >= 0 && o >= 0
    requires e.expire < ls[j].current + Span(ls[j], size)
    requires forall i | 0 <= i <= j :: Aligned(ls[i], o)
    requires k > 0 ==> e.expire - ls[k].current >= ls[k].tick
    ensures var ms := InsertAt(size, ls, k, e).levels;
            && Valid(size, ms) && AllTimely(size, ms, o) && SameClocks(ls, ms) && SameStuck(size, ls, ms, o)
            && forall i | j < i < |ls| :: ms[i] == ls[i]
    decreases j - k
  {
    InsertKeeps(size, ls, k, e);
    InsertFits(size, ls, k, j, e);
    var remaining := e.expire - ls[k].current;
    if remaining < ls[k].tick {
    } else if remaining < Span(ls[k], size) {
      PutTimely(ls[k], size, o, e);
      Classified(ls[k], size, o, e);
      var ms := ls[k := Put(ls[k], e, size)];
      forall i: nat, x ensures StuckAt(size, ms, i, o, x) <==> StuckAt(size, ls, i, o, x) {
        PutStuck(size, ls, o, k, e, i, x);
      }
    } else {
      assert Linked(ls[k], ls[k + 1], size);
      HandedDown(size, ls, k + 1, j, o, e);
    }
  }

  /** What level k sweeps goes to levels below k, or starts. */
  lemma {:induction false} DrainTimed(size: nat, ls: Levels, k: nat, o: int, es: seq<Entry>, now: int)
    requires Valid(size, ls) && k < |ls| && AllTimely(size, ls, o) && CaughtUp(ls, k + 1, now) && o >= 0
    requires forall i | 0 <= i <= k :: Aligned(ls[i], o)
    requires forall e | e in es :: 0 <= e.expire < now + ls[k].tick
    ensures var ms := Drain(size, ls, es, now).levels;
            && Valid(size, ms) && AllTimely(size, ms, o) && SameClocks(ls, ms) && SameStuck(size, ls, ms, o)
            && forall j | k <= j < |ls| :: ms[j] == ls[j]
    decreases |es|
  {
    if es == [] {
    } else {
      if es[0].expire <= now {
        DrainTimed(size, ls, k, o, es[1..], now);
      } else {
        if k > 0 {
          assert Linked(ls[k - 1], ls[k], size);
          HandedDown(size, ls, 0, k - 1, o, es[0]);
        } else {
          InsertKeeps(size, ls, 0, es[0]);
        }
        DrainTimed(size, InsertAt(size, ls, 0, es[0]).levels, k, o, es[1..], now);
      }
    }
  }
}
