/**
 * What the calls of SeqProtocol get when nobody interrupts them: `For` publishes an allocator, `Next` issues the
 * next numbers of the current segment, of the prefetched one, or of a segment it loads, and a prefetch fills
 * the buffer. It is what SeqAllocator says of calls that do not overlap.
 */
module SeqAlone {
  import opened Common
  import opened SeqProtocol

  /** Thread t makes its next access. */
  function Go(s: State, t: nat, loads: bool): State {
    Step(s, Run(t, loads))
  }

  /** t is idle and may call its process's allocator a, whose mutex is free. */
  predicate Ready(s: State, t: nat, a: Allocator) {
    && t in s.threads && s.threads[t].proc in s.steps && s.threads[t].pc.Idle?
    && s.threads[t].proc in s.published && s.published[s.threads[t].proc] == a && !a.locked
    && a.cur < |s.segs| && (a.buf.Some? ==> a.buf.value < |s.segs|)
  }

  /** The allocator of t's process has become a, the segments `segs`, and t is idle again. */
  predicate Returned(s: State, m: State, t: nat, a: Allocator, segs: seq<Segment>, maxId: int, issued: seq<Range>)
    requires t in s.threads
  {
    && m.segs == segs && m.maxId == maxId && m.issued == issued && m.steps == s.steps
    && m.published == s.published[s.threads[t].proc := a] && m.threads == s.threads[t := s.threads[t].(pc := Idle)]
  }

  /** The row is raised to v, or stays where it is above; a lost commit takes its numbers out of use. */
  lemma RowMoves(s: State, v: int, up: nat)
    ensures Step(s, Raise(v)) == s.(maxId := if v > s.maxId then v else s.maxId)
    ensures Step(s, LostCommit(up)).maxId == s.maxId + up && Step(s, LostCommit(up)).segs == s.segs
  {
  }

  /** A new thread of process p is idle. */
  lemma ThreadStarts(s: State, t: nat, p: nat)
    requires t !in s.threads && p in s.steps
    ensures Step(s, Spawn(t, p)) == s.(threads := s.threads[t := Thread(p, Idle)])
  {
  }

  // ---- take ----

  /** The three accesses of a `take` that meets nobody. */
  function Taking(s: State, t: nat): State {
    Go(Go(Go(s, t, true), t, true), t, true)
  }

  predicate AtTop(s: State, t: nat, a: Allocator, n: int) {
    && t in s.threads && s.threads[t].proc in s.steps && s.threads[t].pc == Top(n)
    && s.threads[t].proc in s.published && s.published[s.threads[t].proc] == a && a.cur < |s.segs|
  }

  lemma TakeFits(s: State, t: nat, a: Allocator, n: int)
    requires AtTop(s, t, a, n) && s.segs[a.cur].cursor + n <= s.segs[a.cur].end
    ensures var g := s.segs[a.cur];
      Returned(s, Taking(s, t), t, a, s.segs[a.cur := Segment(g.start, g.end, g.cursor + n)], s.maxId,
               s.issued + [Range(a.cur, g.cursor + 1, n, t)])
  {
    var u := Go(s, t, true);
    assert u.threads[t].pc == HaveSegment(n, a.cur);
    var v := Go(u, t, true);
    assert v.threads[t].pc == HaveCursor(n, a.cur, s.segs[a.cur].cursor);
    assert s.threads[t := v.threads[t]] == v.threads;
    assert s.published[s.threads[t].proc := a] == s.published;
  }

  lemma TakeFails(s: State, t: nat, a: Allocator, n: int)
    requires AtTop(s, t, a, n) && s.segs[a.cur].cursor + n > s.segs[a.cur].end
    ensures Taking(s, t) == At(s, t, WantSwap(n))
  {
    var u := Go(s, t, true);
    assert u == At(s, t, HaveSegment(n, a.cur));
    var v := Go(u, t, true);
    assert v == At(s, t, HaveCursor(n, a.cur, s.segs[a.cur].cursor));
  }

  // ---- swapSync ----

  lemma SwapBuffered(s: State, t: nat, a: Allocator, n: int)
    requires t in s.threads && s.threads[t].proc in s.steps && s.threads[t].pc == WantSwap(n)
    requires s.threads[t].proc in s.published && s.published[s.threads[t].proc] == a && !a.locked && a.buf.Some?
    ensures Go(Go(s, t, true), t, true)
         == At(WithAllocator(s, s.threads[t].proc, a.(cur := a.buf.value, buf := None)), t, Top(n))
  {
    var u := Go(s, t, true);
    assert u == At(WithAllocator(s, s.threads[t].proc, a.(buf := None, locked := true)), t, Swapped(n, a.buf.value));
  }

  lemma SwapLoads(s: State, t: nat, a: Allocator, n: int)
    requires t in s.threads && s.threads[t].proc in s.steps && s.threads[t].pc == WantSwap(n)
    requires s.threads[t].proc in s.published && s.published[s.threads[t].proc] == a && !a.locked && a.buf.None?
    ensures Go(Go(Go(s, t, true), t, true), t, true)
         == At(WithAllocator(Load(s, a.step), s.threads[t].proc, a.(cur := |s.segs|)), t, Top(n))
  {
    var p := s.threads[t].proc;
    var u := Go(s, t, true);
    assert u == At(WithAllocator(s, p, a.(locked := true)), t, Swapping(n));
    var v := Go(u, t, true);
    assert v == At(WithAllocator(Load(s, a.step), p, a.(locked := true)), t, Swapped(n, |s.segs|));
  }

  lemma SwapFails(s: State, t: nat, a: Allocator, n: int)
    requires t in s.threads && s.threads[t].proc in s.steps && s.threads[t].pc == WantSwap(n)
    requires s.threads[t].proc in s.published && s.published[s.threads[t].proc] == a && !a.locked && a.buf.None?
    ensures Go(Go(s, t, true), t, false) == At(s, t, Idle)
  {
    var p := s.threads[t].proc;
    var u := Go(s, t, true);
    assert u == At(WithAllocator(s, p, a.(locked := true)), t, Swapping(n));
    assert s.published[p := a] == s.published;
  }

  // ---- The calls ----

  /** The current segment has room: the next numbers of it. */
  lemma NextTakes(s: State, t: nat, a: Allocator, n: int)
    requires Ready(s, t, a) && 0 < n <= a.step && s.segs[a.cur].cursor + n <= s.segs[a.cur].end
    ensures var g := s.segs[a.cur];
      Returned(s, Taking(Step(s, CallNext(t, n)), t), t, a, s.segs[a.cur := Segment(g.start, g.end, g.cursor + n)],
               s.maxId, s.issued + [Range(a.cur, g.cursor + 1, n, t)])
  {
    TakeFits(At(s, t, Top(n)), t, a, n);
  }

  /** Where the swap has left the allocator. */
  function AfterSwap(s: State, t: nat, a: Allocator, n: int): State
    requires t in s.threads && a.buf.Some?
  {
    At(WithAllocator(s, s.threads[t].proc, a.(cur := a.buf.value, buf := None)), t, Top(n))
  }

  lemma TakeSwapped(s: State, t: nat, a: Allocator, n: int)
    requires Ready(s, t, a) && a.buf.Some? && s.segs[a.buf.value].cursor + n <= s.segs[a.buf.value].end
    ensures var b := a.buf.value;
      var g := s.segs[b];
      Returned(s, Taking(AfterSwap(s, t, a, n), t), t, a.(cur := b, buf := None),
               s.segs[b := Segment(g.start, g.end, g.cursor + n)], s.maxId, s.issued + [Range(b, g.cursor + 1, n, t)])
  {
    TakeFits(AfterSwap(s, t, a, n), t, a.(cur := a.buf.value, buf := None), n);
  }

  lemma SwappedIs(s: State, t: nat, a: Allocator, n: int)
    requires t in s.threads && a.buf.Some?
    ensures At(WithAllocator(At(s, t, WantSwap(n)), s.threads[t].proc, a.(cur := a.buf.value, buf := None)), t, Top(n))
         == AfterSwap(s, t, a, n)
    ensures At(At(s, t, Top(n)), t, WantSwap(n)) == At(s, t, WantSwap(n))
  {
  }

  /** It has none and the next one is prefetched: that one is current now, and gives the numbers. */
  lemma NextSwaps(s: State, t: nat, a: Allocator, n: int)
    requires Ready(s, t, a) && 0 < n <= a.step && s.segs[a.cur].cursor + n > s.segs[a.cur].end && a.buf.Some?
    requires s.segs[a.buf.value].cursor + n <= s.segs[a.buf.value].end
    ensures var b, u := a.buf.value, Taking(Step(s, CallNext(t, n)), t);
      var g := s.segs[b];
      Returned(s, Taking(Go(Go(u, t, true), t, true), t), t, a.(cur := b, buf := None),
               s.segs[b := Segment(g.start, g.end, g.cursor + n)], s.maxId, s.issued + [Range(b, g.cursor + 1, n, t)])
  {
    TakeFails(At(s, t, Top(n)), t, a, n);
    var u := Taking(At(s, t, Top(n)), t);
    SwapBuffered(u, t, a, n);
    SwappedIs(s, t, a, n);
    TakeSwapped(s, t, a, n);
  }

  /** Where the load has left the allocator. */
  function AfterLoad(s: State, t: nat, a: Allocator, n: int): State
    requires t in s.threads
  {
    At(WithAllocator(Load(s, a.step), s.threads[t].proc, a.(cur := |s.segs|)), t, Top(n))
  }

  lemma TakeLoaded(s: State, t: nat, a: Allocator, n: int)
    requires Ready(s, t, a) && 0 < n <= a.step
    ensures Returned(s, Taking(AfterLoad(s, t, a, n), t), t, a.(cur := |s.segs|),
                     s.segs + [Segment(s.maxId + 1, s.maxId + a.step, s.maxId + n)], s.maxId + a.step,
                     s.issued + [Range(|s.segs|, s.maxId + 1, n, t)])
  {
    var v := AfterLoad(s, t, a, n);
    assert v.segs[|s.segs|] == Segment(s.maxId + 1, s.maxId + a.step, s.maxId);
    TakeFits(v, t, a.(cur := |s.segs|), n);
    var g := Segment(s.maxId + 1, s.maxId + a.step, s.maxId + n);
    assert v.segs[|s.segs| := g] == s.segs + [g];
  }

  /** It has none and nothing is prefetched: a step of the row is loaded, and its first numbers are issued. */
  lemma NextLoads(s: State, t: nat, a: Allocator, n: int)
    requires Ready(s, t, a) && 0 < n <= a.step && s.segs[a.cur].cursor + n > s.segs[a.cur].end && a.buf.None?
    ensures var u := Taking(Step(s, CallNext(t, n)), t);
      Returned(s, Taking(Go(Go(Go(u, t, true), t, true), t, true), t), t, a.(cur := |s.segs|),
               s.segs + [Segment(s.maxId + 1, s.maxId + a.step, s.maxId + n)], s.maxId + a.step,
               s.issued + [Range(|s.segs|, s.maxId + 1, n, t)])
  {
    TakeFails(At(s, t, Top(n)), t, a, n);
    var u := Taking(At(s, t, Top(n)), t);
    SwapLoads(u, t, a, n);
    LoadedIs(s, t, a, n);
    TakeLoaded(s, t, a, n);
  }

  lemma LoadedIs(s: State, t: nat, a: Allocator, n: int)
    requires t in s.threads
    ensures At(WithAllocator(Load(At(s, t, WantSwap(n)), a.step), s.threads[t].proc, a.(cur := |s.segs|)), t, Top(n))
         == AfterLoad(s, t, a, n)
    ensures At(At(s, t, Top(n)), t, WantSwap(n)) == At(s, t, WantSwap(n))
  {
  }

  /** The load fails: the call fails and nothing has changed. */
  lemma NextFails(s: State, t: nat, a: Allocator, n: int)
    requires Ready(s, t, a) && 0 < n <= a.step && s.segs[a.cur].cursor + n > s.segs[a.cur].end && a.buf.None?
    ensures Go(Go(Taking(Step(s, CallNext(t, n)), t), t, true), t, false) == s
  {
    TakeFails(At(s, t, Top(n)), t, a, n);
    SwapFails(Taking(At(s, t, Top(n)), t), t, a, n);
    assert s.threads[t := s.threads[t].(pc := Idle)] == s.threads;
  }

  /** A prefetch loads a step of the row into the empty buffer. */
  lemma PrefetchFills(s: State, t: nat, a: Allocator)
    requires Ready(s, t, a) && a.buf.None?
    ensures Returned(s, Go(Go(Go(Step(s, CallPrefetch(t)), t, true), t, true), t, true), t, a.(buf := Some(|s.segs|)),
                     s.segs + [Segment(s.maxId + 1, s.maxId + a.step, s.maxId)], s.maxId + a.step, s.issued)
  {
    var p := s.threads[t].proc;
    var u := Go(At(s, t, WantRefill), t, true);
    assert u == At(WithAllocator(s, p, a.(locked := true)), t, Refilling);
    var v := Go(u, t, true);
    assert v == At(WithAllocator(Load(s, a.step), p, a.(locked := true)), t, Refilled(|s.segs|));
  }

  /** `For` of a new key loads a segment and publishes an allocator on it. */
  lemma ForPublishes(s: State, t: nat)
    requires t in s.threads && s.threads[t].proc in s.steps && s.threads[t].pc.Idle?
    requires s.threads[t].proc !in s.published
    ensures var step := s.steps[s.threads[t].proc];
      Returned(s, Go(Go(Step(s, CallFor(t)), t, true), t, true), t, Allocator(step, |s.segs|, None, false),
               s.segs + [Segment(s.maxId + 1, s.maxId + step, s.maxId)], s.maxId + step, s.issued)
  {
    var u := Go(At(s, t, Creating), t, true);
    assert u == At(Load(s, s.steps[s.threads[t].proc]), t, Publishing(|s.segs|));
  }
}
