/**
 * Number allocation for one (biz, key) under every interleaving (internal/seq/allocator.go).
 *
 * Any number of processes share one seq_segment row. Each process has at most one published allocator
 * (`Pool.For`), and any number of threads inside `For`, `Next`, `take`, `swapSync` and `refillAsync`; a
 * thread's program counter says which shared access it makes next. One step is one shared access: an
 * atomic load or store, a compare-and-swap, a mutex acquisition, or a whole database transaction. Segments
 * are never freed and are named by their position in `segs`.
 */
module SeqProtocol {
  import opened Common

  datatype Segment = Segment(start: int, end: int, cursor: int)

  /** The numbers start .. start + n - 1, taken from segment `seg` by thread `who`. */
  datatype Range = Range(seg: nat, start: int, n: int, who: nat)

  datatype Allocator = Allocator(step: int, cur: nat, buf: Option<nat>, locked: bool)

  datatype Pc =
    | Idle
    | Creating                                // For: key not in the map, about to load the first segment
    | Publishing(seg: nat)                    // For: loaded, about to re-check the map
    | Top(n: int)                             // Next: loop head
    | HaveSegment(n: int, seg: nat)           // Next: cur.Load() done
    | HaveCursor(n: int, seg: nat, c: int)    // take: cursor.Load() done
    | WantSwap(n: int)                        // swapSync: waiting for mu
    | Swapping(n: int)                        // swapSync: holds mu, buf was nil
    | Swapped(n: int, seg: nat)               // swapSync: holds mu and a segment, about to cur.Store
    | WantRefill                              // prefetch goroutine: waiting for mu
    | Refilling                               // prefetch goroutine: holds mu, buf was nil
    | Refilled(seg: nat)                      // prefetch goroutine: loaded, about to buf.Store

  datatype Thread = Thread(proc: nat, pc: Pc)

  /** `published[p]` is process p's entry for this key; `steps[p]` its pool's step. */
  datatype State = State(
    maxId: int, segs: seq<Segment>, steps: map<nat, int>, published: map<nat, Allocator>,
    threads: map<nat, Thread>, issued: seq<Range>)

  datatype Action =
    | Spawn(t: nat, p: nat)
    | CallFor(t: nat)
    | CallNext(t: nat, n: int)
    | CallPrefetch(t: nat)          // refillAsync; Next calls it below the low-water mark, here at any time
    | Run(t: nat, loads: bool)      // next access of thread t; `loads` is the outcome of a database transaction
    | Raise(v: int)                 // GREATEST(max_id, v) by the sync watermark write-back
    | LostCommit(up: nat)           // a load that committed although its caller saw an error

  predicate InRange(x: int, r: Range) {
    r.start <= x < r.start + r.n
  }

  function At(s: State, t: nat, pc: Pc): State
    requires t in s.threads
  {
    s.(threads := s.threads[t := s.threads[t].(pc := pc)])
  }

  /** The load transaction: create the row at 0 if need be, add step, read back. */
  function Load(s: State, step: int): State {
    s.(maxId := s.maxId + step, segs := s.segs + [Segment(s.maxId + 1, s.maxId + step, s.maxId)])
  }

  function WithAllocator(s: State, p: nat, a: Allocator): State {
    s.(published := s.published[p := a])
  }

  /** The next shared access of thread t, which is inside a call on its process's published allocator. */
  function Access(s: State, t: nat, loads: bool): State
    requires t in s.threads && s.threads[t].proc in s.steps
  {
    var p, pc := s.threads[t].proc, s.threads[t].pc;
    if pc.Creating? then
      if loads then At(Load(s, s.steps[p]), t, Publishing(|s.segs|)) else At(s, t, Idle)
    else if pc.Publishing? then
      if p in s.published then At(s, t, Idle)
      else At(WithAllocator(s, p, Allocator(s.steps[p], pc.seg, None, false)), t, Idle)
    else if p !in s.published then s
    else
      var a := s.published[p];
      match pc
      case Top(n) => At(s, t, HaveSegment(n, a.cur))
      case HaveSegment(n, g) =>
        if g >= |s.segs| then s else At(s, t, HaveCursor(n, g, s.segs[g].cursor))
      case HaveCursor(n, g, c) =>
        if g >= |s.segs| then s
        else if c + n > s.segs[g].end then At(s, t, WantSwap(n))
        else if s.segs[g].cursor != c then At(s, t, HaveSegment(n, g))
        else
          At(s.(segs := s.segs[g := s.segs[g].(cursor := c + n)],
                issued := s.issued + [Range(g, c + 1, n, t)]), t, Idle)
      case WantSwap(n) =>
        if a.locked then s
        else if a.buf.Some? then At(WithAllocator(s, p, a.(buf := None, locked := true)), t, Swapped(n, a.buf.value))
        else At(WithAllocator(s, p, a.(locked := true)), t, Swapping(n))
      case Swapping(n) =>
        if loads then At(Load(s, a.step), t, Swapped(n, |s.segs|))
        else At(WithAllocator(s, p, a.(locked := false)), t, Idle)
      case Swapped(n, g) => At(WithAllocator(s, p, a.(cur := g, locked := false)), t, Top(n))
      case WantRefill =>
        if a.locked then s
        else if a.buf.Some? then At(s, t, Idle)
        else At(WithAllocator(s, p, a.(locked := true)), t, Refilling)
      case Refilling =>
        if loads then At(Load(s, a.step), t, Refilled(|s.segs|))
        else At(WithAllocator(s, p, a.(locked := false)), t, Idle)
      case Refilled(g) => At(WithAllocator(s, p, a.(buf := Some(g), locked := false)), t, Idle)
      case _ => s
  }

  function Step(s: State, act: Action): State {
    match act
    case Spawn(t, p) => if t in s.threads || p !in s.steps then s else s.(threads := s.threads[t := Thread(p, Idle)])
    case CallFor(t) =>
      if t in s.threads && s.threads[t].pc.Idle? && s.threads[t].proc !in s.published then At(s, t, Creating) else s
    case CallNext(t, n) =>
      if t in s.threads && s.threads[t].pc.Idle? && s.threads[t].proc in s.published
         && 0 < n <= s.published[s.threads[t].proc].step
      then At(s, t, Top(n)) else s
    case CallPrefetch(t) =>
      if t in s.threads && s.threads[t].pc.Idle? && s.threads[t].proc in s.published
         && s.published[s.threads[t].proc].buf.None?
      then At(s, t, WantRefill) else s
    case Run(t, loads) => if t in s.threads && s.threads[t].proc in s.steps then Access(s, t, loads) else s
    case Raise(v) => s.(maxId := if v > s.maxId then v else s.maxId)
    case LostCommit(up) => s.(maxId := s.maxId + up)
  }

  /** Steps of the pools are positive; the row does not exist yet. */
  ghost predicate Init(s: State) {
    && s.maxId == 0 && s.segs == [] && s.published == map[] && s.threads == map[] && s.issued == []
    && forall p | p in s.steps :: s.steps[p] > 0
  }

  function Reach(s: State, acts: seq<Action>): State
    decreases |acts|
  {
    if acts == [] then s else Reach(Step(s, acts[0]), acts[1..])
  }

  // ---- Invariants ----

  /** Loaded segments lie above 0, at or below max_id, in load order and apart from each other. */
  ghost predicate SegmentsApart(s: State) {
    && s.maxId >= 0
    && (forall g | 0 <= g < |s.segs| :: SegmentOk(s.segs[g], s.maxId))
    && (forall g, h | 0 <= g < h < |s.segs| :: s.segs[g].end < s.segs[h].start)
  }

  predicate SegmentOk(g: Segment, maxId: int) {
    1 <= g.start && g.start - 1 <= g.cursor <= g.end <= maxId
  }

  /** Every issued range was taken from a loaded segment, at or below its cursor. */
  ghost predicate IssuedInside(s: State) {
    forall i | 0 <= i < |s.issued| :: Inside(s.issued[i], s.segs)
  }

  predicate Inside(r: Range, segs: seq<Segment>) {
    && r.n > 0 && r.seg < |segs|
    && segs[r.seg].start <= r.start && r.start + r.n - 1 <= segs[r.seg].cursor
  }

  ghost predicate IssuedApart(s: State) {
    forall i, j | 0 <= i < j < |s.issued| :: Apart(s.issued[i], s.issued[j])
  }

  predicate Apart(r: Range, q: Range) {
    r.start + r.n <= q.start || q.start + q.n <= r.start
  }

  predicate BelowCursor(segs: seq<Segment>, g: nat, x: int) {
    g < |segs| && segs[g].start <= x <= segs[g].cursor
  }

  predicate Of(r: Range, g: nat, x: int) {
    r.seg == g && InRange(x, r)
  }

  ghost predicate IssuedFrom(issued: seq<Range>, g: nat, x: int) {
    exists i :: 0 <= i < |issued| && Of(issued[i], g, x)
  }

  /** Below its cursor every number of a segment has been issued: nothing is skipped inside a segment. */
  ghost predicate NoGaps(s: State) {
    forall g: nat, x :: BelowCursor(s.segs, g, x) ==> IssuedFrom(s.issued, g, x)
  }

  /** A pending take asks for a positive count. */
  ghost predicate CountsPositive(s: State) {
    && (forall p | p in s.steps :: s.steps[p] > 0)
    && (forall p | p in s.published :: s.published[p].step > 0)
    && forall t | t in s.threads :: PcOk(s.threads[t].pc)
  }

  predicate PcOk(pc: Pc) {
    match pc
    case Top(n) => n > 0
    case HaveSegment(n, _) => n > 0
    case HaveCursor(n, _, _) => n > 0
    case WantSwap(n) => n > 0
    case Swapping(n) => n > 0
    case Swapped(n, _) => n > 0
    case _ => true
  }

  ghost predicate Inv(s: State) {
    SegmentsApart(s) && IssuedInside(s) && IssuedApart(s) && NoGaps(s) && CountsPositive(s)
  }

  /** A step that touches neither segments nor issued ranges keeps everything about them. */
  lemma SameNumbers(s: State, t: State)
    requires Inv(s) && t.segs == s.segs && t.issued == s.issued && t.maxId >= s.maxId && CountsPositive(t)
    ensures Inv(t)
  {
    forall g | 0 <= g < |t.segs| ensures SegmentOk(t.segs[g], t.maxId) {
      assert SegmentOk(s.segs[g], s.maxId);
    }
  }

  lemma LoadKeeps(s: State, step: int)
    requires Inv(s) && step > 0
    ensures Inv(Load(s, step))
  {
    var t := Load(s, step);
    forall g | 0 <= g < |t.segs| ensures SegmentOk(t.segs[g], t.maxId) {
      if g < |s.segs| { assert SegmentOk(s.segs[g], s.maxId); }
    }
    forall g, h | 0 <= g < h < |t.segs| ensures t.segs[g].end < t.segs[h].start {
      assert SegmentOk(s.segs[g], s.maxId);
    }
    forall i | 0 <= i < |t.issued| ensures Inside(t.issued[i], t.segs) {
      assert Inside(s.issued[i], s.segs);
    }
    forall g: nat, x | BelowCursor(t.segs, g, x) ensures IssuedFrom(t.issued, g, x) {
      assert BelowCursor(s.segs, g, x);
    }
  }

  /** A compare-and-swap of thread t that succeeds on segment g. */
  function Taken(s: State, g: nat, n: int, t: nat): State
    requires g < |s.segs|
  {
    s.(segs := s.segs[g := s.segs[g].(cursor := s.segs[g].cursor + n)],
       issued := s.issued + [Range(g, s.segs[g].cursor + 1, n, t)])
  }

  lemma TakeApart(s: State, g: nat, n: int, who: nat)
    requires Inv(s) && g < |s.segs| && n > 0 && s.segs[g].cursor + n <= s.segs[g].end
    ensures IssuedApart(Taken(s, g, n, who)) && IssuedInside(Taken(s, g, n, who)) && SegmentsApart(Taken(s, g, n, who))
  {
    var t := Taken(s, g, n, who);
    var r := t.issued[|s.issued|];
    assert SegmentOk(s.segs[g], s.maxId);
    forall i | 0 <= i < |s.issued| ensures Apart(s.issued[i], r) && Inside(s.issued[i], t.segs) {
      var q := s.issued[i];
      assert Inside(q, s.segs);
      assert SegmentOk(s.segs[q.seg], s.maxId);
      if q.seg < g { assert s.segs[q.seg].end < s.segs[g].start; }
      if q.seg > g { assert s.segs[g].end < s.segs[q.seg].start; }
    }
    assert Inside(r, t.segs);
    forall h | 0 <= h < |t.segs| ensures SegmentOk(t.segs[h], t.maxId) {
      assert SegmentOk(s.segs[h], s.maxId);
    }
    forall h, k | 0 <= h < k < |t.segs| ensures t.segs[h].end < t.segs[k].start {
      assert s.segs[h].end < s.segs[k].start;
    }
  }

  lemma TakeNoGaps(s: State, g: nat, n: int, who: nat)
    requires Inv(s) && g < |s.segs| && n > 0 && s.segs[g].cursor + n <= s.segs[g].end
    ensures NoGaps(Taken(s, g, n, who))
  {
    var t := Taken(s, g, n, who);
    forall h: nat, x | BelowCursor(t.segs, h, x) ensures IssuedFrom(t.issued, h, x) {
      if h == g && x > s.segs[g].cursor {
        assert Of(t.issued[|s.issued|], h, x);
      } else {
        assert BelowCursor(s.segs, h, x) && IssuedFrom(s.issued, h, x);
        var i :| 0 <= i < |s.issued| && Of(s.issued[i], h, x);
        assert t.issued[i] == s.issued[i];
      }
    }
  }

  lemma AccessKeeps(s: State, t: nat, loads: bool)
    requires Inv(s) && t in s.threads && s.threads[t].proc in s.steps
    ensures Inv(Access(s, t, loads))
  {
    var s' := Access(s, t, loads);
    var p, pc := s.threads[t].proc, s.threads[t].pc;
    assert PcOk(pc);
    if pc.HaveCursor? && p in s.published && pc.seg < |s.segs| && pc.c + pc.n <= s.segs[pc.seg].end
       && s.segs[pc.seg].cursor == pc.c
    {
      TakeApart(s, pc.seg, pc.n, t);
      TakeNoGaps(s, pc.seg, pc.n, t);
      SameNumbersAs(Taken(s, pc.seg, pc.n, t), s');
    } else if pc.Creating? && loads {
      LoadKeeps(s, s.steps[p]);
      SameNumbers(Load(s, s.steps[p]), s');
    } else if (pc.Swapping? || pc.Refilling?) && loads && p in s.published {
      LoadKeeps(s, s.published[p].step);
      SameNumbers(Load(s, s.published[p].step), s');
    } else {
      SameNumbers(s, s');
    }
  }

  lemma SameNumbersAs(s: State, t: State)
    requires SegmentsApart(s) && IssuedInside(s) && IssuedApart(s) && NoGaps(s)
    requires t.segs == s.segs && t.issued == s.issued && t.maxId == s.maxId && CountsPositive(t)
    ensures Inv(t)
  {
  }

  lemma StepKeeps(s: State, act: Action)
    requires Inv(s)
    ensures Inv(Step(s, act))
  {
    match act
    case Run(t, loads) => if t in s.threads && s.threads[t].proc in s.steps { AccessKeeps(s, t, loads); }
    case _ => SameNumbers(s, Step(s, act));
  }

  lemma {:induction false} ReachKeeps(s: State, acts: seq<Action>)
    requires Inv(s)
    ensures Inv(Reach(s, acts))
    decreases |acts|
  {
    if acts == [] {
    } else {
      StepKeeps(s, acts[0]);
      ReachKeeps(Step(s, acts[0]), acts[1..]);
    }
  }

  lemma InitInv(s: State)
    requires Init(s)
    ensures Inv(s)
  {
  }

  /** Number uniqueness: in every reachable state a number belongs to at most one issued range. */
  lemma Unique(s: State, acts: seq<Action>, i: nat, j: nat, x: int)
    requires Init(s) && i < |Reach(s, acts).issued| && j < |Reach(s, acts).issued|
    ensures i != j ==> !(InRange(x, Reach(s, acts).issued[i]) && InRange(x, Reach(s, acts).issued[j]))
  {
    InitInv(s);
    ReachKeeps(s, acts);
    var t := Reach(s, acts);
    assert i < j ==> Apart(t.issued[i], t.issued[j]);
    assert j < i ==> Apart(t.issued[j], t.issued[i]);
  }

  /**
   * The numbers issued from a loaded segment are exactly those from its start to its cursor, no two segments
   * share a number, and all numbers are positive.
   */
  lemma IssuedIffBelowCursor(s: State, acts: seq<Action>, g: nat, x: int)
    requires Init(s)
    ensures IssuedFrom(Reach(s, acts).issued, g, x) <==> BelowCursor(Reach(s, acts).segs, g, x)
    ensures BelowCursor(Reach(s, acts).segs, g, x) ==> 1 <= x <= Reach(s, acts).segs[g].end <= Reach(s, acts).maxId
  {
    InitInv(s);
    ReachKeeps(s, acts);
    var t := Reach(s, acts);
    if i :| 0 <= i < |t.issued| && Of(t.issued[i], g, x) {
      assert Inside(t.issued[i], t.segs);
    }
    if g < |t.segs| { assert SegmentOk(t.segs[g], t.maxId); }
  }

  /** Whatever range a step issues shares no number with any range issued before, and starts at 1 or above. */
  lemma IssueIsFresh(s: State, acts: seq<Action>, act: Action, i: nat)
    requires Init(s) && i < |Reach(s, acts).issued| < |Step(Reach(s, acts), act).issued|
    ensures var t := Step(Reach(s, acts), act);
            && |t.issued| == |Reach(s, acts).issued| + 1
            && Apart(Reach(s, acts).issued[i], t.issued[|t.issued| - 1]) && t.issued[|t.issued| - 1].start >= 1
  {
    InitInv(s);
    ReachKeeps(s, acts);
    StepKeeps(Reach(s, acts), act);
    var t := Step(Reach(s, acts), act);
    assert Apart(t.issued[i], t.issued[|t.issued| - 1]);
    var r := t.issued[|t.issued| - 1];
    assert Inside(r, t.segs) && SegmentOk(t.segs[r.seg], t.maxId);
  }
}
