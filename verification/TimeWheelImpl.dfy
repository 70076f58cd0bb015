/**
 * The wheel in the form the source has it: linked Wheel objects with bucket arrays, updated in place.
 * Every method is proved equal to its function in TimeWheel.
 */
module TimeWheelImpl {
  import opened TimeWheel
  import S = TimeWheelSafety

  class Wheel {
    const tick: int
    const size: nat
    const slots: array<seq<Entry>>
    var current: int
    var overflow: Wheel?

    constructor (tick: int, size: nat, current: int)
      ensures this.tick == tick && this.size == size && this.current == current && overflow == null
      ensures fresh(slots) && slots.Length == size && slots[..] == seq(size, _ => [])
    {
      this.tick := tick;
      this.size := size;
      this.current := current;
      overflow := null;
      slots := new seq<Entry>[size](_ => []);
    }

    ghost function View(): Level
      reads this, slots
    {
      Level(tick, current, slots[..])
    }
  }

  function Started(now: bool, e: Entry): multiset<Entry> {
    if now then multiset{e} else multiset{}
  }

  lemma OverflowSlack(size: nat, ls: Levels, k: nat, e: Entry)
    requires size >= 2 && k < |ls| && AllShaped(size, ls) && e.expire - ls[k].current >= Span(ls[k], size)
    ensures k + 1 < |WithOverflow(size, ls, k)|
    ensures |WithOverflow(size, ls, k)| - (k + 1) < |ls| - k
            || (|WithOverflow(size, ls, k)| - (k + 1) == |ls| - k
                && Slack(WithOverflow(size, ls, k)[k + 1], e) < Slack(ls[k], e))
  {
    NewLevelShape(ls[k], size);
  }

  /** What level k does when it accepts `now`. */
  ghost function Sweep(size: nat, ls: Levels, k: nat, now: int): Swept
    requires Valid(size, ls) && k < |ls| && Valid(size, Turned(size, ls, k, now))
  {
    Drain(size, Turned(size, ls, k, now), ls[k].slots[SlotIndex(now, ls[k].tick, size)], now)
  }

  /** `advance` from level k is its own sweep, and then, when its turn is full, `advance` of the next level. */
  lemma AdvanceSplit(size: nat, ls: Levels, k: nat, now: int, was: multiset<Entry>)
    requires Valid(size, ls) && k < |ls| && CaughtUp(ls, k, now) && now - ls[k].current >= ls[k].tick
    ensures Valid(size, Turned(size, ls, k, now))
    ensures var r := Sweep(size, ls, k, now);
            && Valid(size, r.levels) && |r.levels| == |ls| && CaughtUp(r.levels, k + 1, now)
            && var i := SlotIndex(now, ls[k].tick, size);
               if k + 1 < |ls| && i == 0
               then AdvanceAt(size, ls, k, now).levels == AdvanceAt(size, r.levels, k + 1, now).levels
                 && was + AdvanceAt(size, ls, k, now).started
                      == (was + r.started) + AdvanceAt(size, r.levels, k + 1, now).started
               else AdvanceAt(size, ls, k, now) == r
  {
    DrainFitsHere(size, ls, k, now);
  }

  /** What is left of `goal` after level k's own sweep r: the overflow wheel's part, or nothing. */
  ghost predicate Continues(size: nat, r: Swept, k: nat, now: int, carry: bool, was: multiset<Entry>, goal: Swept) {
    && Valid(size, r.levels)
    && if carry then
         && k + 1 < |r.levels| && CaughtUp(r.levels, k + 1, now)
         && goal.levels == AdvanceAt(size, r.levels, k + 1, now).levels
         && was + goal.started == (was + r.started) + AdvanceAt(size, r.levels, k + 1, now).started
       else goal == r
  }

  lemma SweepContinues(size: nat, ls: Levels, k: nat, now: int, was: multiset<Entry>, goal: Swept)
    requires Valid(size, ls) && k < |ls| && CaughtUp(ls, k, now) && now - ls[k].current >= ls[k].tick
    requires goal == AdvanceAt(size, ls, k, now)
    ensures Valid(size, Turned(size, ls, k, now)) && |Sweep(size, ls, k, now).levels| == |ls|
    ensures var carry := k + 1 < |ls| && SlotIndex(now, ls[k].tick, size) == 0;
      Continues(size, Sweep(size, ls, k, now), k, now, carry, was, goal)
  {
    AdvanceSplit(size, ls, k, now, was);
  }

  /** The levels and the started tasks of a state of the wheel's runs. */
  ghost predicate Shows(s: S.State, ls: Levels, started: multiset<Entry>) {
    s.levels == ls && s.started == started
  }

  /** In every state that shows the old levels, `After` leads to one that shows the new ones, with the task given. */
  ghost predicate GivenTo(size: nat, ls: Levels, started: multiset<Entry>, ms: Levels, after: multiset<Entry>,
                          at: int, delay: int, id: nat) {
    forall s | Shows(s, ls, started) && Valid(size, ls) :: Given(size, s, ms, after, at, delay, id)
  }

  ghost predicate Given(size: nat, s: S.State, ms: Levels, after: multiset<Entry>, at: int, delay: int, id: nat)
    requires Valid(size, s.levels)
  {
    var t := S.Step(size, s, S.After(at, delay, id));
    && Shows(t, ms, after) && t.given == s.given + multiset{Entry(at + delay, id)}
    && t.atOnce == s.atOnce + Started(delay <= 0, Entry(at + delay, id))
  }

  lemma StepGives(size: nat, s: S.State, ms: Levels, after: multiset<Entry>, at: int, delay: int, id: nat)
    requires Valid(size, s.levels)
    requires delay <= 0 ==> ms == s.levels && after == s.started
    requires delay > 0 ==>
               var e := Entry(at + delay, id);
               var p := InsertAt(size, s.levels, 0, e);
               ms == p.levels && after == s.started + Started(p.started, e)
    ensures Given(size, s, ms, after, at, delay, id)
  {
    if delay <= 0 {
      StepAtOnce(size, s, at, delay, id);
    } else {
      StepInserts(size, s, at, delay, id);
    }
  }

  lemma StepAtOnce(size: nat, s: S.State, at: int, delay: int, id: nat)
    requires Valid(size, s.levels) && delay <= 0
    ensures Given(size, s, s.levels, s.started, at, delay, id)
  {
  }

  lemma StepInserts(size: nat, s: S.State, at: int, delay: int, id: nat)
    requires Valid(size, s.levels) && delay > 0
    ensures var e := Entry(at + delay, id);
      var p := InsertAt(size, s.levels, 0, e);
      Given(size, s, p.levels, s.started + Started(p.started, e), at, delay, id)
  {
    assert s.started + multiset{} == s.started && s.atOnce + multiset{} == s.atOnce;
  }

  lemma AfterIsStep(size: nat, ls: Levels, started: multiset<Entry>, ms: Levels, after: multiset<Entry>,
                    at: int, delay: int, id: nat)
    requires size >= 2 && |ls| > 0 && AllShaped(size, ls)
    requires delay <= 0 ==> ms == ls && after == started
    requires delay > 0 ==>
               var e := Entry(at + delay, id);
               var p := InsertAt(size, ls, 0, e);
               ms == p.levels && after == started + Started(p.started, e)
    ensures GivenTo(size, ls, started, ms, after, at, delay, id)
  {
    forall s | Shows(s, ls, started) && Valid(size, ls) ensures Given(size, s, ms, after, at, delay, id) {
      StepGives(size, s, ms, after, at, delay, id);
    }
  }

  /** The root wheel and the log of the tasks it has started. `chain` lists root, overflow, overflow of that, ... */
  class Timer {
    const size: nat
    const root: Wheel
    var started: multiset<Entry>
    ghost var chain: seq<Wheel>
    ghost var Repr: set<object>

    ghost predicate Linking()
      reads this`chain, this`Repr, Repr
    {
      && this !in Repr && size >= 2 && |chain| > 0 && chain[0] == root
      && (forall i | 0 <= i < |chain| :: chain[i] in Repr && chain[i].slots in Repr
            && chain[i].size == size && chain[i].slots.Length == size && chain[i].tick > 0)
      && (forall i, j | 0 <= i && j == i + 1 < |chain| :: chain[i].overflow == chain[j])
      && chain[|chain| - 1].overflow == null
      && (forall i, j | 0 <= i < j < |chain| :: chain[i] != chain[j] && chain[i].slots != chain[j].slots)
    }

    ghost function Levels(): (ls: Levels)
      requires Linking()
      reads this`chain, this`Repr, Repr
      ensures |ls| == |chain| && AllShaped(size, ls)
      ensures forall i | 0 <= i < |chain| :: ls[i] == chain[i].View()
    {
      var ws, repr := chain, Repr;
      seq(|ws|, i requires 0 <= i < |ws| && ws[i] in repr && ws[i].slots in repr reads repr => ws[i].View())
    }

    constructor (tick: int, size: nat, now: int)
      requires tick > 0 && size >= 2
      ensures Linking() && fresh(Repr) && this.size == size
      ensures Levels() == [Level(tick, now, seq(size, _ => []))] && started == multiset{}
    {
      var w := new Wheel(tick, size, now);
      this.size := size;
      root := w;
      started := multiset{};
      chain := [w];
      Repr := {w, w.slots};
    }

    /** `slots[idx].add(e)`. */
    method AddToSlot(wheel: Wheel, ghost k: nat, e: Entry)
      requires Linking() && k < |chain| && wheel == chain[k]
      modifies wheel.slots
      ensures Linking() && Levels() == old(Levels())[k := Put(old(Levels())[k], e, size)]
    {
      var idx := SlotIndex(e.expire, wheel.tick, wheel.size);
      wheel.slots[idx] := wheel.slots[idx] + [e];
      assert Levels()[k] == Put(old(Levels())[k], e, size);
      forall i | 0 <= i < |chain| && i != k ensures Levels()[i] == old(Levels())[i] {
        assert chain[i].slots != wheel.slots;
      }
    }

    /** `wheel.overflow = newLevel(wheel, root)` on the last wheel. */
    method AddOverflow(wheel: Wheel, ghost k: nat)
      requires Linking() && k == |chain| - 1 && wheel == chain[k]
      modifies this`chain, this`Repr, wheel`overflow
      ensures Linking() && |chain| == k + 2 && old(chain) <= chain && wheel.overflow == chain[k + 1]
      ensures fresh(Repr - old(Repr)) && old(Repr) <= Repr
      ensures Levels() == WithOverflow(size, old(Levels()), k)
    {
      ghost var ls := Levels();
      NewLevelShape(ls[k], size);
      var w := Append(wheel, k);
      assert w.View() == NewLevel(ls[k], size);
      assert Levels() == ls + [w.View()];
    }

    /** A new, empty wheel behind the last one. */
    method Append(wheel: Wheel, ghost k: nat) returns (w: Wheel)
      requires Linking() && k == |chain| - 1 && wheel == chain[k] && wheel.tick * wheel.size > 0
      modifies this`chain, this`Repr, wheel`overflow
      ensures Linking() && chain == old(chain) + [w] && wheel.overflow == w
      ensures fresh(w) && fresh(w.slots) && Repr == old(Repr) + {w, w.slots}
      ensures w.View() == Level(wheel.tick * wheel.size, wheel.current, seq(size, _ => []))
    {
      w := new Wheel(wheel.tick * wheel.size, wheel.size, wheel.current);
      wheel.overflow := w;
      chain := chain + [w];
      Repr := Repr + {w, w.slots};
    }

    method Insert(e: Entry)
      requires Linking()
      modifies this, Repr
      ensures Linking() && fresh(Repr - old(Repr)) && old(chain) <= chain
      ensures Levels() == InsertAt(size, old(Levels()), 0, e).levels
      ensures started == old(started) + Started(InsertAt(size, old(Levels()), 0, e).started, e)
    {
      var wheel := root;
      ghost var k := 0;
      ghost var goal := InsertAt(size, Levels(), 0, e);
      var done := false;
      while !done
        invariant Linking() && fresh(Repr - old(Repr)) && old(chain) <= chain
        invariant !done ==> k < |chain| && wheel == chain[k] && started == old(started)
        invariant !done ==> InsertAt(size, Levels(), k, e) == goal
        invariant done ==> Levels() == goal.levels && started == old(started) + Started(goal.started, e)
        decreases !done, |chain| - k, if !done then Slack(Levels()[k], e) else 0
      {
        done, wheel := InsertHere(wheel, k, e);
        k := if done then k else k + 1;
      }
    }

    /** One iteration: fire, put in a bucket, or move to the overflow wheel. */
    method InsertHere(wheel: Wheel, ghost k: nat, e: Entry) returns (done: bool, next: Wheel)
      requires Linking() && k < |chain| && wheel == chain[k]
      modifies this, Repr
      ensures Linking() && fresh(Repr - old(Repr)) && old(chain) <= chain
      ensures done ==> Levels() == InsertAt(size, old(Levels()), k, e).levels
                       && started == old(started) + Started(InsertAt(size, old(Levels()), k, e).started, e)
      ensures !done ==> k + 1 < |chain| && next == chain[k + 1] && started == old(started)
      ensures !done ==> InsertAt(size, Levels(), k + 1, e) == InsertAt(size, old(Levels()), k, e)
      ensures !done ==>
                |chain| - (k + 1) < old(|chain|) - k
                || (|chain| - (k + 1) == old(|chain|) - k && Slack(Levels()[k + 1], e) < Slack(old(Levels())[k], e))
    {
      var remaining := e.expire - wheel.current;
      if remaining < wheel.tick {
        started := started + multiset{e};
        return true, wheel;
      }
      if remaining < wheel.tick * wheel.size {
        AddToSlot(wheel, k, e);
        return true, wheel;
      }
      NewLevelShape(Levels()[k], size);
      OverflowSlack(size, Levels(), k, e);
      next := Overflow(wheel, k);
      return false, next;
    }

    /** The overflow wheel, created if it is not there. */
    method Overflow(wheel: Wheel, ghost k: nat) returns (ow: Wheel)
      requires Linking() && k < |chain| && wheel == chain[k]
      modifies this`chain, this`Repr, wheel`overflow
      ensures Linking() && old(chain) <= chain && k + 1 < |chain| && ow == chain[k + 1]
      ensures fresh(Repr - old(Repr)) && old(Repr) <= Repr
      ensures Levels() == WithOverflow(size, old(Levels()), k)
    {
      assert k + 1 < |chain| ==> wheel.overflow == chain[k + 1];
      if wheel.overflow == null {
        AddOverflow(wheel, k);
      }
      assert wheel.overflow == chain[k + 1];
      ow := wheel.overflow;
    }

    /** `After`: the clock reading `at` is a parameter. */
    method After(at: int, delay: int, id: nat) returns (atOnce: bool)
      requires Linking()
      modifies this, Repr
      ensures Linking() && fresh(Repr - old(Repr)) && (atOnce <==> delay <= 0)
      ensures atOnce ==> Levels() == old(Levels()) && started == old(started)
      ensures !atOnce ==>
                var p := InsertAt(size, old(Levels()), 0, Entry(at + delay, id));
                && Levels() == p.levels
                && started == old(started) + Started(p.started, Entry(at + delay, id))
      ensures GivenTo(size, old(Levels()), old(started), Levels(), started, at, delay, id)
    {
      if delay <= 0 {
        AfterIsStep(size, Levels(), started, Levels(), started, at, delay, id);
        return true;
      }
      Insert(Entry(at + delay, id));
      AfterIsStep(size, old(Levels()), old(started), Levels(), started, at, delay, id);
      return false;
    }

    /** One tick of the driver: `advance` of the root. */
    method OnTick(now: int)
      requires Linking() && Valid(size, Levels())
      modifies this, Repr
      ensures Linking() && fresh(Repr - old(Repr)) && Valid(size, Levels())
      ensures forall s: S.State | Shows(s, old(Levels()), old(started)) ::
                var t := S.Step(size, s, S.Tick(now));
                Shows(t, Levels(), started) && t.given == s.given && t.atOnce == s.atOnce
    {
      AdvanceKeeps(size, Levels(), 0, now);
      Advance(root, 0, now);
    }

    /** `drain`: what is due starts, the rest goes back in at the root. */
    method DrainBucket(es: seq<Entry>, now: int)
      requires Linking() && Valid(size, Levels())
      modifies this, Repr
      ensures Linking() && fresh(Repr - old(Repr)) && old(chain) <= chain
      ensures Levels() == Drain(size, old(Levels()), es, now).levels
      ensures started == old(started) + Drain(size, old(Levels()), es, now).started
    {
      ghost var goal := Drain(size, Levels(), es, now);
      var i := 0;
      while i < |es|
        invariant 0 <= i <= |es|
        invariant Linking() && fresh(Repr - old(Repr)) && Valid(size, Levels()) && old(chain) <= chain
        invariant Drain(size, Levels(), es[i..], now).levels == goal.levels
        invariant started + Drain(size, Levels(), es[i..], now).started == old(started) + goal.started
      {
        DrainStep(es[i..], now);
        assert es[i..][1..] == es[i + 1..];
        i := i + 1;
      }
    }

    /** One entry of the drained bucket. */
    method DrainStep(es: seq<Entry>, now: int)
      requires Linking() && Valid(size, Levels()) && es != []
      modifies this, Repr
      ensures Linking() && fresh(Repr - old(Repr)) && old(chain) <= chain && Valid(size, Levels())
      ensures Drain(size, Levels(), es[1..], now).levels == Drain(size, old(Levels()), es, now).levels
      ensures started + Drain(size, Levels(), es[1..], now).started
           == old(started) + Drain(size, old(Levels()), es, now).started
    {
      if es[0].expire <= now {
        started := started + multiset{es[0]};
      } else {
        InsertKeeps(size, Levels(), 0, es[0]);
        Insert(es[0]);
      }
    }

    /** `advance` of the wheel at position k of the chain. */
    method Advance(wheel: Wheel, ghost k: nat, now: int)
      requires Linking() && k < |chain| && wheel == chain[k]
      requires Valid(size, Levels()) && CaughtUp(Levels(), k, now)
      modifies this, Repr
      ensures Linking() && fresh(Repr - old(Repr)) && old(chain) <= chain
      ensures Levels() == AdvanceAt(size, old(Levels()), k, now).levels
      ensures started == old(started) + AdvanceAt(size, old(Levels()), k, now).started
      decreases |chain| - k, 2
    {
      if now - wheel.current < wheel.tick { return; }
      AdvanceAccepted(wheel, k, now);
    }

    /** `advance` once `now` is a full tick ahead. */
    method AdvanceAccepted(wheel: Wheel, ghost k: nat, now: int)
      requires Linking() && k < |chain| && wheel == chain[k] && now - wheel.current >= wheel.tick
      requires Valid(size, Levels()) && CaughtUp(Levels(), k, now)
      modifies this, Repr
      ensures Linking() && fresh(Repr - old(Repr)) && old(chain) <= chain
      ensures Levels() == AdvanceAt(size, old(Levels()), k, now).levels
      ensures started == old(started) + AdvanceAt(size, old(Levels()), k, now).started
      decreases |chain| - k, 1
    {
      ghost var ls, was, repr := Levels(), started, Repr;
      ghost var goal := AdvanceAt(size, ls, k, now);
      SweepContinues(size, ls, k, now, was, goal);
      var idx := SlotIndex(now, wheel.tick, wheel.size);
      ghost var r := Sweep(size, ls, k, now);
      SweepWheel(wheel, k, now, idx);
      ghost var swept := Repr;
      AfterSweep(wheel, k, now, idx, r, was, goal);
      assert Repr - repr <= (Repr - swept) + (swept - repr);
    }

    /** What follows the sweep of level k: the overflow wheel advances when the slot swept was the first. */
    method AfterSweep(wheel: Wheel, ghost k: nat, now: int, idx: nat, ghost r: Swept, ghost was: multiset<Entry>,
                      ghost goal: Swept)
      requires Linking() && k < |chain| && wheel == chain[k]
      requires wheel.overflow == if k + 1 < |chain| then chain[k + 1] else null
      requires Continues(size, r, k, now, k + 1 < |chain| && idx == 0, was, goal)
      requires Levels() == r.levels && started == was + r.started
      modifies this, Repr
      ensures Linking() && fresh(Repr - old(Repr)) && old(chain) <= chain
      ensures Levels() == goal.levels && started == was + goal.started
      decreases |chain| - k, 0
    {
      if wheel.overflow != null && idx == 0 {
        Advance(wheel.overflow, k + 1, now);
      }
    }

    method SweepWheel(wheel: Wheel, ghost k: nat, now: int, idx: nat)
      requires Linking() && k < |chain| && wheel == chain[k] && idx == SlotIndex(now, wheel.tick, size)
      requires Valid(size, Levels()) && Valid(size, Turned(size, Levels(), k, now))
      modifies this, Repr
      ensures Linking() && fresh(Repr - old(Repr)) && old(chain) <= chain && wheel == chain[k]
      ensures wheel.overflow == if k + 1 < |chain| then chain[k + 1] else null
      ensures Levels() == Sweep(size, old(Levels()), k, now).levels
      ensures started == old(started) + Sweep(size, old(Levels()), k, now).started
    {
      var es := TakeBucket(wheel, k, now, idx);
      DrainBucket(es, now);
      assert k + 1 < |chain| ==> wheel.overflow == chain[k + 1];
    }

    /** `current = now` and `take` of the bucket of `now`. */
    method TakeBucket(wheel: Wheel, ghost k: nat, now: int, idx: nat) returns (es: seq<Entry>)
      requires Linking() && k < |chain| && wheel == chain[k] && idx == SlotIndex(now, wheel.tick, size)
      modifies wheel`current, wheel.slots
      ensures Linking() && Repr == old(Repr) && chain == old(chain) && es == old(Levels())[k].slots[idx]
      ensures Levels() == Turned(size, old(Levels()), k, now)
    {
      wheel.current := now;
      es := wheel.slots[idx];
      wheel.slots[idx] := [];
      assert Levels()[k] == Turned(size, old(Levels()), k, now)[k];
      forall i | 0 <= i < |chain| && i != k ensures Levels()[i] == old(Levels())[i] {
        assert chain[i] != wheel && chain[i].slots != wheel.slots;
      }
    }
  }
}
