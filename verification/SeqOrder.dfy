/**
 * The order of the numbers of one process, under every interleaving of SeqProtocol: a call of `Next` that starts
 * after a range has been issued gets larger numbers, whatever other calls, swaps, prefetches and processes race
 * with it. The current segment of an allocator only moves to later ones, and its prefetched one lies behind it.
 */
module SeqOrder {
  import opened Common
  import opened SeqProtocol

  // ---- Allocators, locks and threads ----

  /** The thread holds the mutex of its process's allocator. */
  predicate Locks(pc: Pc) {
    pc.Swapping? || pc.Swapped? || pc.Refilling? || pc.Refilled?
  }

  /** The segments a thread has loaded, relative to the allocator's current one. */
  predicate PcInOrder(pc: Pc, a: Allocator, n: nat) {
    match pc
    case HaveSegment(_, g) => g <= a.cur
    case HaveCursor(_, g, _) => g <= a.cur
    case Swapped(_, g) => a.cur < g < n
    case Refilled(g) => a.cur < g < n
    case Publishing(g) => g < n
    case _ => true
  }

  predicate ThreadInOrder(s: State, t: nat)
    requires t in s.threads
  {
    var p, pc := s.threads[t].proc, s.threads[t].pc;
    if p in s.published then
      PcInOrder(pc, s.published[p], |s.segs|)
        && (Locks(pc) ==> s.published[p].locked && s.published[p].buf.None?)
    else pc.Idle? || pc.Creating? || (pc.Publishing? && pc.seg < |s.segs|)
  }

  /** The prefetched segment was loaded after the current one. */
  predicate AllocatorInOrder(a: Allocator, n: nat) {
    a.cur < n && (a.buf.Some? ==> a.cur < a.buf.value < n)
  }

  predicate SameProcess(s: State, t: nat, u: nat) {
    t in s.threads && u in s.threads && s.threads[t].proc == s.threads[u].proc
  }

  ghost predicate OneHolder(s: State) {
    forall t, u | SameProcess(s, t, u) && t != u :: !(Locks(s.threads[t].pc) && Locks(s.threads[u].pc))
  }

  /** A range was taken from the current segment of its process or an earlier one. */
  predicate RangeInOrder(s: State, r: Range) {
    && r.who in s.threads && s.threads[r.who].proc in s.published && r.seg <= s.published[s.threads[r.who].proc].cur
  }

  ghost predicate Order(s: State) {
    && (forall p | p in s.published :: AllocatorInOrder(s.published[p], |s.segs|))
    && (forall t | t in s.threads :: ThreadInOrder(s, t))
    && OneHolder(s)
    && (forall i | 0 <= i < |s.issued| :: RangeInOrder(s, s.issued[i]))
  }

  /** From s to m no allocator goes back to an earlier segment and no cursor goes back. */
  ghost predicate Onward(s: State, m: State) {
    && (forall t | t in s.threads :: t in m.threads && m.threads[t].proc == s.threads[t].proc)
    && (forall p | p in s.published :: p in m.published && s.published[p].cur <= m.published[p].cur)
    && |s.segs| <= |m.segs| && (forall g | 0 <= g < |s.segs| :: s.segs[g].cursor <= m.segs[g].cursor)
    && s.issued <= m.issued
  }

  lemma OnwardTwice(s: State, m: State, n: State)
    requires Onward(s, m) && Onward(m, n)
    ensures Onward(s, n)
  {
  }

  // ---- Every step keeps the order and moves onward ----

  lemma LoadOrder(s: State, step: int)
    requires Order(s)
    ensures Order(Load(s, step)) && Onward(s, Load(s, step))
  {
    var m := Load(s, step);
    forall t | t in m.threads ensures ThreadInOrder(m, t) {
      assert ThreadInOrder(s, t);
    }
    forall i | 0 <= i < |m.issued| ensures RangeInOrder(m, m.issued[i]) {
      assert RangeInOrder(s, s.issued[i]);
    }
  }

  /** A thread moves on without taking the lock. */
  lemma PcOrder(s: State, t: nat, pc: Pc)
    requires Order(s) && t in s.threads && (Locks(pc) ==> Locks(s.threads[t].pc)) && ThreadInOrder(At(s, t, pc), t)
    ensures Order(At(s, t, pc)) && Onward(s, At(s, t, pc))
  {
    var m := At(s, t, pc);
    forall u | u in m.threads ensures ThreadInOrder(m, u) {
      if u != t { assert ThreadInOrder(s, u); }
    }
    forall i | 0 <= i < |m.issued| ensures RangeInOrder(m, m.issued[i]) {
      assert RangeInOrder(s, s.issued[i]);
    }
  }

  /** No other thread of t's process holds the lock. */
  ghost predicate Alone(s: State, t: nat) {
    forall u | SameProcess(s, t, u) && u != t :: !Locks(s.threads[u].pc)
  }

  lemma HolderAlone(s: State, t: nat)
    requires Order(s) && t in s.threads
    requires Locks(s.threads[t].pc) || (s.threads[t].proc in s.published && !s.published[s.threads[t].proc].locked)
    ensures Alone(s, t)
  {
    forall u | SameProcess(s, t, u) && u != t ensures !Locks(s.threads[u].pc) {
      assert ThreadInOrder(s, u);
      assert SameProcess(s, u, t);
    }
  }

  /** A thread with the lock, or taking it, changes its allocator. */
  lemma AllocatorOrder(s: State, t: nat, a: Allocator, pc: Pc)
    requires Order(s) && t in s.threads && Alone(s, t) && s.threads[t].proc in s.published
    requires s.published[s.threads[t].proc].cur <= a.cur && AllocatorInOrder(a, |s.segs|)
    requires PcInOrder(pc, a, |s.segs|) && (Locks(pc) ==> a.locked && a.buf.None?)
    ensures var m := At(WithAllocator(s, s.threads[t].proc, a), t, pc); Order(m) && Onward(s, m)
  {
    var p := s.threads[t].proc;
    var m := At(WithAllocator(s, p, a), t, pc);
    forall u | u in m.threads ensures ThreadInOrder(m, u) {
      if u != t {
        assert ThreadInOrder(s, u);
        assert m.threads[u].proc == p ==> SameProcess(s, t, u);
      }
    }
    forall i | 0 <= i < |m.issued| ensures RangeInOrder(m, m.issued[i]) {
      assert RangeInOrder(s, s.issued[i]);
    }
  }

  /** A process publishes its first allocator. */
  lemma PublishOrder(s: State, t: nat, seg: nat, step: int)
    requires Order(s) && t in s.threads && s.threads[t].proc !in s.published && s.threads[t].pc == Publishing(seg)
    ensures var m := At(WithAllocator(s, s.threads[t].proc, Allocator(step, seg, None, false)), t, Idle);
      Order(m) && Onward(s, m)
  {
    var m := At(WithAllocator(s, s.threads[t].proc, Allocator(step, seg, None, false)), t, Idle);
    assert ThreadInOrder(s, t);
    forall u | u in m.threads ensures ThreadInOrder(m, u) {
      assert ThreadInOrder(s, u);
    }
    forall i | 0 <= i < |m.issued| ensures RangeInOrder(m, m.issued[i]) {
      assert RangeInOrder(s, s.issued[i]);
    }
  }

  lemma TakeOrder(s: State, t: nat, g: nat, n: int)
    requires Order(s) && t in s.threads && s.threads[t].proc in s.published && n > 0
    requires g <= s.published[s.threads[t].proc].cur && !Locks(s.threads[t].pc)
    ensures g < |s.segs|
    ensures var m := At(Taken(s, g, n, t), t, Idle); Order(m) && Onward(s, m)
  {
    var m := At(Taken(s, g, n, t), t, Idle);
    forall u | u in m.threads ensures ThreadInOrder(m, u) {
      assert ThreadInOrder(s, u);
    }
    forall i | 0 <= i < |m.issued| ensures RangeInOrder(m, m.issued[i]) {
      if i < |s.issued| { assert RangeInOrder(s, s.issued[i]); }
    }
  }

  lemma Stays(s: State)
    ensures Onward(s, s)
  {
  }

  /** The accesses of `For`. */
  lemma ForOrder(s: State, t: nat, loads: bool)
    requires Order(s) && t in s.threads && s.threads[t].proc in s.steps
    requires s.threads[t].pc.Creating? || s.threads[t].pc.Publishing?
    ensures Order(Access(s, t, loads)) && Onward(s, Access(s, t, loads))
  {
    var p, pc := s.threads[t].proc, s.threads[t].pc;
    if pc.Creating? && loads {
      LoadOrder(s, s.steps[p]);
      PcOrder(Load(s, s.steps[p]), t, Publishing(|s.segs|));
    } else if pc.Creating? || p in s.published {
      PcOrder(s, t, Idle);
    } else {
      PublishOrder(s, t, pc.seg, s.steps[p]);
    }
  }

  /** The compare-and-swap of `take`. */
  lemma CursorOrder(s: State, t: nat, loads: bool)
    requires Order(s) && Inv(s) && t in s.threads && s.threads[t].proc in s.steps && s.threads[t].proc in s.published
    requires s.threads[t].pc.HaveCursor?
    ensures Order(Access(s, t, loads)) && Onward(s, Access(s, t, loads))
  {
    assert ThreadInOrder(s, t) && PcOk(s.threads[t].pc);
    var n, g, c := s.threads[t].pc.n, s.threads[t].pc.seg, s.threads[t].pc.c;
    if c + n > s.segs[g].end {
      PcOrder(s, t, WantSwap(n));
    } else if s.segs[g].cursor != c {
      PcOrder(s, t, HaveSegment(n, g));
    } else {
      TakeOrder(s, t, g, n);
    }
  }

  /** The lock-free accesses of `Next`. */
  lemma NextOrder(s: State, t: nat, loads: bool)
    requires Order(s) && Inv(s) && t in s.threads && s.threads[t].proc in s.steps && s.threads[t].proc in s.published
    requires s.threads[t].pc.Top? || s.threads[t].pc.HaveSegment? || s.threads[t].pc.HaveCursor?
    ensures Order(Access(s, t, loads)) && Onward(s, Access(s, t, loads))
  {
    assert ThreadInOrder(s, t) && PcOk(s.threads[t].pc);
    match s.threads[t].pc
    case Top(n) => PcOrder(s, t, HaveSegment(n, s.published[s.threads[t].proc].cur));
    case HaveSegment(n, g) => PcOrder(s, t, HaveCursor(n, g, s.segs[g].cursor));
    case HaveCursor(_, _, _) => CursorOrder(s, t, loads);
  }

  /** The accesses of `swapSync` and of the prefetch. */
  lemma LockedOrder(s: State, t: nat, loads: bool)
    requires Order(s) && t in s.threads && s.threads[t].proc in s.steps && s.threads[t].proc in s.published
    requires Locks(s.threads[t].pc)
    ensures Order(Access(s, t, loads)) && Onward(s, Access(s, t, loads))
  {
    var p := s.threads[t].proc;
    var a := s.published[p];
    assert ThreadInOrder(s, t) && AllocatorInOrder(a, |s.segs|);
    HolderAlone(s, t);
    match s.threads[t].pc
    case Swapping(n) =>
      if loads {
        LoadOrder(s, a.step);
        PcOrder(Load(s, a.step), t, Swapped(n, |s.segs|));
      } else {
        AllocatorOrder(s, t, a.(locked := false), Idle);
      }
    case Swapped(n, g) => AllocatorOrder(s, t, a.(cur := g, locked := false), Top(n));
    case Refilling =>
      if loads {
        LoadOrder(s, a.step);
        PcOrder(Load(s, a.step), t, Refilled(|s.segs|));
      } else {
        AllocatorOrder(s, t, a.(locked := false), Idle);
      }
    case Refilled(g) => AllocatorOrder(s, t, a.(buf := Some(g), locked := false), Idle);
  }

  lemma LockOrder(s: State, t: nat, loads: bool)
    requires Order(s) && t in s.threads && s.threads[t].proc in s.steps && s.threads[t].proc in s.published
    requires s.threads[t].pc.WantSwap? || s.threads[t].pc.WantRefill?
    ensures Order(Access(s, t, loads)) && Onward(s, Access(s, t, loads))
  {
    var a, pc := s.published[s.threads[t].proc], s.threads[t].pc;
    assert AllocatorInOrder(a, |s.segs|);
    if a.locked {
    } else if pc.WantRefill? && a.buf.Some? {
      PcOrder(s, t, Idle);
    } else {
      HolderAlone(s, t);
      var next := if pc.WantRefill? then Refilling
                  else if a.buf.Some? then Swapped(pc.n, a.buf.value) else Swapping(pc.n);
      AllocatorOrder(s, t, a.(buf := None, locked := true), next);
    }
  }

  lemma AccessOrder(s: State, t: nat, loads: bool)
    requires Order(s) && Inv(s) && t in s.threads && s.threads[t].proc in s.steps
    ensures Order(Access(s, t, loads)) && Onward(s, Access(s, t, loads))
  {
    var p, pc := s.threads[t].proc, s.threads[t].pc;
    assert ThreadInOrder(s, t);
    if pc.Creating? || pc.Publishing? {
      ForOrder(s, t, loads);
    } else if pc.Idle? || p !in s.published {
      Stays(s);
    } else if Locks(pc) {
      LockedOrder(s, t, loads);
    } else if pc.WantSwap? || pc.WantRefill? {
      LockOrder(s, t, loads);
    } else {
      NextOrder(s, t, loads);
    }
  }

  /** A new thread, or the start of a call. */
  lemma CallOrder(s: State, act: Action)
    requires Order(s) && (act.Spawn? || act.CallFor? || act.CallNext? || act.CallPrefetch?)
    ensures Order(Step(s, act)) && Onward(s, Step(s, act))
  {
    if act.Spawn? {
      var m := Step(s, act);
      forall u | u in m.threads ensures ThreadInOrder(m, u) {
        if u in s.threads { assert ThreadInOrder(s, u); }
      }
      forall i | 0 <= i < |m.issued| ensures RangeInOrder(m, m.issued[i]) {
        assert RangeInOrder(s, s.issued[i]);
      }
    } else if Step(s, act) == s {
      Stays(s);
    } else {
      PcOrder(s, act.t, Step(s, act).threads[act.t].pc);
    }
  }

  lemma RaiseOrder(s: State, v: int)
    requires Order(s)
    ensures Order(s.(maxId := v)) && Onward(s, s.(maxId := v))
  {
    var m := s.(maxId := v);
    forall t | t in m.threads ensures ThreadInOrder(m, t) {
      assert ThreadInOrder(s, t);
    }
    forall i | 0 <= i < |m.issued| ensures RangeInOrder(m, m.issued[i]) {
      assert RangeInOrder(s, s.issued[i]);
    }
  }

  lemma StepOrder(s: State, act: Action)
    requires Order(s) && Inv(s)
    ensures Order(Step(s, act)) && Onward(s, Step(s, act))
  {
    match act
    case Run(t, loads) =>
      if t in s.threads && s.threads[t].proc in s.steps { AccessOrder(s, t, loads); } else { Stays(s); }
    case Raise(v) => RaiseOrder(s, Step(s, act).maxId);
    case LostCommit(up) => RaiseOrder(s, Step(s, act).maxId);
    case _ => CallOrder(s, act);
  }

  lemma {:induction false} ReachOrder(s: State, acts: seq<Action>)
    requires Order(s) && Inv(s)
    ensures Order(Reach(s, acts)) && Inv(Reach(s, acts)) && Onward(s, Reach(s, acts))
    decreases |acts|
  {
    if acts == [] {
      Stays(s);
    } else {
      StepOrder(s, acts[0]);
      StepKeeps(s, acts[0]);
      ReachOrder(Step(s, acts[0]), acts[1..]);
      OnwardTwice(s, Step(s, acts[0]), Reach(s, acts));
    }
  }

  // ---- A call that starts later gets larger numbers ----

  predicate SegmentAtLeast(pc: Pc, g: nat) {
    (pc.HaveSegment? || pc.HaveCursor?) ==> pc.seg >= g
  }

  /**
   * Thread t's call, and all its later ones, see segment g or later ones, and g's numbers up to x are taken: what
   * t has issued since the first `n` ranges lies above x.
   */
  ghost predicate Ahead(s: State, t: nat, g: nat, x: int, n: nat) {
    && t in s.threads && s.threads[t].proc in s.published && g <= s.published[s.threads[t].proc].cur
    && g < |s.segs| && s.segs[g].cursor >= x && SegmentAtLeast(s.threads[t].pc, g)
    && forall j | n <= j < |s.issued| && s.issued[j].who == t :: s.issued[j].start > x
  }

  /** Thread t moves on by one access. */
  lemma OwnAccessAhead(s: State, t: nat, loads: bool, g: nat, x: int, n: nat)
    requires Order(s) && Inv(s) && Ahead(s, t, g, x, n) && s.threads[t].proc in s.steps
    ensures Ahead(Access(s, t, loads), t, g, x, n)
  {
    var m, pc := Access(s, t, loads), s.threads[t].pc;
    AccessOrder(s, t, loads);
    assert ThreadInOrder(s, t) && PcOk(pc);
    if pc.HaveCursor? && pc.c + pc.n <= s.segs[pc.seg].end && s.segs[pc.seg].cursor == pc.c {
      assert SegmentOk(s.segs[g], s.maxId) && SegmentOk(s.segs[pc.seg], s.maxId);
      assert g < pc.seg ==> s.segs[g].end < s.segs[pc.seg].start;
      assert m.issued[|s.issued|] == Range(pc.seg, pc.c + 1, pc.n, t);
    }
  }

  /** What another thread's access leaves alone. */
  lemma AccessElsewhere(s: State, u: nat, loads: bool, t: nat)
    requires u in s.threads && s.threads[u].proc in s.steps && t in s.threads && t != u
    ensures var m := Access(s, u, loads);
      && t in m.threads && m.threads[t] == s.threads[t]
      && forall j | |s.issued| <= j < |m.issued| :: m.issued[j].who == u
  {
  }

  /** A step of another thread, or a call t starts itself. */
  predicate Elsewhere(s: State, m: State, t: nat)
    requires t in s.threads
  {
    && t in m.threads && m.threads[t].proc == s.threads[t].proc
    && (m.threads[t].pc == s.threads[t].pc || !(m.threads[t].pc.HaveSegment? || m.threads[t].pc.HaveCursor?))
    && forall j | |s.issued| <= j < |m.issued| :: m.issued[j].who != t
  }

  lemma StepElsewhere(s: State, act: Action, t: nat)
    requires t in s.threads && !(act.Run? && act.t == t)
    ensures Elsewhere(s, Step(s, act), t)
  {
    if act.Run? && act.t in s.threads && s.threads[act.t].proc in s.steps {
      AccessElsewhere(s, act.t, act.loads, t);
    }
  }

  lemma ElsewhereAhead(s: State, m: State, t: nat, g: nat, x: int, n: nat)
    requires Ahead(s, t, g, x, n) && Elsewhere(s, m, t) && Onward(s, m)
    ensures Ahead(m, t, g, x, n)
  {
  }

  lemma {:induction false} ReachAhead(s: State, acts: seq<Action>, t: nat, g: nat, x: int, n: nat)
    requires Order(s) && Inv(s) && Ahead(s, t, g, x, n)
    ensures Ahead(Reach(s, acts), t, g, x, n)
    decreases |acts|
  {
    if acts == [] {
    } else {
      if acts[0].Run? && acts[0].t == t {
        if s.threads[t].proc in s.steps { OwnAccessAhead(s, t, acts[0].loads, g, x, n); }
      } else {
        StepElsewhere(s, acts[0], t);
        StepOrder(s, acts[0]);
        ElsewhereAhead(s, Step(s, acts[0]), t, g, x, n);
      }
      StepOrder(s, acts[0]);
      StepKeeps(s, acts[0]);
      ReachAhead(Step(s, acts[0]), acts[1..], t, g, x, n);
    }
  }

  lemma InitOrder(s: State)
    requires Init(s)
    ensures Order(s)
  {
  }

  /**
   * Order within a process, over every interleaving: once a range has been issued to a thread of a process, every
   * range that a thread of that process gets in a call it starts afterwards lies above it.
   */
  lemma LaterIsLarger(s0: State, before: seq<Action>, i: nat, t: nat, acts: seq<Action>, j: nat)
    requires Init(s0)
    requires var s := Reach(s0, before);
      i < |s.issued| && SameProcess(s, s.issued[i].who, t) && s.threads[t].pc.Idle?
    requires var s, m := Reach(s0, before), Reach(Reach(s0, before), acts);
      |s.issued| <= j < |m.issued| && m.issued[j].who == t
    ensures var s, m := Reach(s0, before), Reach(Reach(s0, before), acts);
      s.issued <= m.issued && m.issued[i].start + m.issued[i].n <= m.issued[j].start
  {
    InitInv(s0);
    InitOrder(s0);
    ReachOrder(s0, before);
    var s := Reach(s0, before);
    var r := s.issued[i];
    assert RangeInOrder(s, r) && Inside(r, s.segs);
    ReachAhead(s, acts, t, r.seg, r.start + r.n - 1, |s.issued|);
    ReachOrder(s, acts);
  }
}
