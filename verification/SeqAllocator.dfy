/**
 * The double-buffered allocator when calls of `Next` do not overlap (internal/seq/allocator.go): the objects
 * of the source, a value-level specification, and order over whole runs. Prefetches and other users of the
 * row come in between calls at any time.
 */
module SeqAllocator {
  import opened Common

  datatype Result = Taken(start: int) | TooLarge | LoadFailed

  /** An allocator together with its row: cur is (end - step, end] with `cursor`; buf is named by its end. */
  datatype Seq = Seq(step: int, maxId: int, end: int, cursor: int, buf: Option<int>, last: int)

  predicate Good(s: Seq) {
    && s.step > 0 && s.end - s.step <= s.cursor <= s.end <= s.maxId && s.last <= s.cursor
    && (s.buf.Some? ==> s.end + s.step <= s.buf.value <= s.maxId)
  }

  function New(maxId: int, step: int): Seq {
    Seq(step, maxId + step, maxId + step, maxId, None, maxId)
  }

  /** `swapSync`; None when the load fails. */
  function Swap(s: Seq, loads: bool): Option<Seq> {
    if s.buf.Some? then Some(s.(end := s.buf.value, cursor := s.buf.value - s.step, buf := None))
    else if loads then Some(s.(maxId := s.maxId + s.step, end := s.maxId + s.step, cursor := s.maxId))
    else None
  }

  function Take(s: Seq, n: int): Seq {
    s.(cursor := s.cursor + n, last := s.cursor + n)
  }

  function NextOf(s: Seq, n: int, loads: bool): (Seq, Result) {
    if n <= 0 || n > s.step then (s, TooLarge)
    else if s.cursor + n <= s.end then (Take(s, n), Taken(s.cursor + 1))
    else
      match Swap(s, loads)
      case None => (s, LoadFailed)
      case Some(t) => (Take(t, n), Taken(t.cursor + 1))
  }

  function Prefetch(s: Seq, loads: bool): Seq {
    if s.buf.Some? || !loads then s else s.(maxId := s.maxId + s.step, buf := Some(s.maxId + s.step))
  }

  // ---- Order over runs ----

  datatype Op = CallNext(n: int, loads: bool) | CallPrefetch(loads: bool) | RowRaised(v: int)

  datatype Out = Out(start: int, n: int)

  function Step(s: Seq, op: Op): (Seq, seq<Out>) {
    match op
    case CallNext(n, loads) =>
      var (t, r) := NextOf(s, n, loads);
      (t, if r.Taken? then [Out(r.start, n)] else [])
    case CallPrefetch(loads) => (Prefetch(s, loads), [])
    case RowRaised(v) => (if v > s.maxId then s.(maxId := v) else s, [])
  }

  function RunOps(s: Seq, ops: seq<Op>): (Seq, seq<Out>)
    decreases |ops|
  {
    if ops == [] then (s, [])
    else
      var (t, o) := Step(s, ops[0]);
      var (u, os) := RunOps(t, ops[1..]);
      (u, o + os)
  }

  ghost predicate Increasing(outs: seq<Out>, above: int) {
    && (forall i | 0 <= i < |outs| :: outs[i].n > 0 && outs[i].start > above)
    && (forall i, j | 0 <= i < j < |outs| :: outs[i].start + outs[i].n <= outs[j].start)
  }

  /** One call returns numbers above all issued before, and `last` is the largest of them. */
  lemma StepIncreases(s: Seq, op: Op)
    requires Good(s)
    ensures var (t, o) := Step(s, op);
            && Good(t) && t.maxId >= s.maxId && t.step == s.step
            && (o == [] ==> t.last == s.last)
            && (o != [] ==> |o| == 1 && o[0].n > 0 && s.last < o[0].start && t.last == o[0].start + o[0].n - 1)
  {
  }

  /** The largest number issued, given the largest one issued before. */
  function LastOf(outs: seq<Out>, before: int): int {
    if outs == [] then before else outs[|outs| - 1].start + outs[|outs| - 1].n - 1
  }

  lemma PrependIncreasing(o: Out, os: seq<Out>, above: int)
    requires o.n > 0 && o.start > above && Increasing(os, o.start + o.n - 1)
    ensures Increasing([o] + os, above) && LastOf([o] + os, above) == LastOf(os, o.start + o.n - 1)
  {
    var outs := [o] + os;
    forall i | 0 <= i < |outs| ensures outs[i].n > 0 && outs[i].start > above {
      assert i > 0 ==> outs[i] == os[i - 1];
    }
    forall i, j | 0 <= i < j < |outs| ensures outs[i].start + outs[i].n <= outs[j].start {
      assert outs[j] == os[j - 1];
      assert i > 0 ==> outs[i] == os[i - 1];
    }
  }

  /**
   * Over any run of calls that do not overlap, the ranges returned increase strictly and never share a number,
   * and `Peek` is the largest number issued.
   */
  lemma {:induction false} NextIncreases(s: Seq, ops: seq<Op>)
    requires Good(s)
    ensures Good(RunOps(s, ops).0) && Increasing(RunOps(s, ops).1, s.last)
    ensures RunOps(s, ops).0.last == LastOf(RunOps(s, ops).1, s.last)
    decreases |ops|
  {
    if ops == [] {
    } else {
      StepIncreases(s, ops[0]);
      var (t, o) := Step(s, ops[0]);
      NextIncreases(t, ops[1..]);
      var os := RunOps(t, ops[1..]).1;
      if o == [] {
        assert o + os == os;
      } else {
        assert o + os == [o[0]] + os;
        PrependIncreasing(o[0], os, s.last);
      }
    }
  }

  /** A request no larger than the step fails only when the database does. */
  lemma NextFailsIff(s: Seq, n: int, loads: bool)
    requires Good(s)
    ensures NextOf(s, n, loads).1 == TooLarge <==> !(0 < n <= s.step)
    ensures NextOf(s, n, loads).1 == LoadFailed <==> 0 < n <= s.step && s.cursor + n > s.end && s.buf.None? && !loads
  {
  }

  // ---- What a call gets ----

  /** A new allocator hands out the numbers right above the row's; its first segment is one step long. */
  lemma FirstNumbers(maxId: int, step: int, n: int, loads: bool)
    requires 0 < n <= step
    ensures Good(New(maxId, step)) && New(maxId, step).maxId == maxId + step
    ensures NextOf(New(maxId, step), n, loads).1 == Taken(maxId + 1)
  {
  }

  /** While the segment lasts, calls get adjacent ranges and nothing is skipped; the database is not asked. */
  lemma Adjacent(s: Seq, n: int, m: int, loads: bool, again: bool)
    requires Good(s) && 0 < n && 0 < m && s.cursor + n + m <= s.end
    ensures var (t, r) := NextOf(s, n, loads);
      r == Taken(s.cursor + 1) && NextOf(t, m, again).1 == Taken(s.cursor + 1 + n) && t.maxId == s.maxId
  {
  }

  /** A prefetched segment carries the next call over an outage of the database, with the segment's first numbers. */
  lemma PrefetchCarries(s: Seq, n: int)
    requires Good(s) && 0 < n <= s.step
    ensures NextOf(Prefetch(s, true), n, false).1.Taken?
    ensures s.buf.None? && s.cursor + n > s.end ==>
      NextOf(Prefetch(s, true), n, false).1 == Taken(s.maxId + 1) && NextOf(s, n, false).1 == LoadFailed
  {
  }

  /** A prefetch takes one step of the row for an empty buffer, and nothing otherwise. */
  lemma PrefetchTakesOneStep(s: Seq, loads: bool)
    ensures var t := Prefetch(s, loads);
      && (t.step, t.end, t.cursor, t.last) == (s.step, s.end, s.cursor, s.last)
      && (s.buf.None? && loads ==> t.maxId == s.maxId + s.step && t.buf == Some(t.maxId))
      && (s.buf.Some? || !loads ==> t.maxId == s.maxId && t.buf == s.buf)
  {
  }

  /** In a run: a raise of the row, a prefetch, an outage, and the next call gets the numbers above the raise. */
  lemma PrefetchThenNext(s: Seq, n: int, v: int)
    requires Good(s) && s.buf.None? && 0 < n <= s.step && s.cursor + n > s.end
    ensures var outs := RunOps(s, [RowRaised(v), CallPrefetch(true), CallNext(n, false)]).1;
      outs == [Out((if v > s.maxId then v else s.maxId) + 1, n)]
  {
    var ops := [RowRaised(v), CallPrefetch(true), CallNext(n, false)];
    var t := Step(s, ops[0]).0;
    var u := Step(t, ops[1]).0;
    assert ops[1..][0] == ops[1] && ops[1..][1..] == ops[2..] && ops[2..][0] == ops[2] && ops[2..][1..] == [];
    assert RunOps(u, ops[2..]).1 == [Out(NextOf(u, n, false).1.start, n)];
    assert RunOps(t, ops[1..]).1 == [] + RunOps(u, ops[2..]).1;
    assert RunOps(s, ops).1 == [] + RunOps(t, ops[1..]).1;
  }

  // ---- The objects ----

  class Row {
    var maxId: int

    constructor ()
      ensures maxId == 0
    {
      maxId := 0;
    }

    /** The sync watermark write-back: GREATEST(max_id, v). */
    method Raise(v: int)
      modifies this
      ensures maxId == if v > old(maxId) then v else old(maxId)
    {
      if v > maxId { maxId := v; }
    }

    /** `tryLoad`. */
    method TryLoad(step: int, commits: bool) returns (seg: SegmentObj?)
      modifies this
      ensures !commits ==> seg == null && maxId == old(maxId)
      ensures commits ==> seg != null && fresh(seg) && maxId == old(maxId) + step
      ensures commits ==> seg.start == old(maxId) + 1 && seg.end == maxId && seg.cursor == old(maxId)
    {
      if !commits { return null; }
      maxId := maxId + step;
      seg := new SegmentObj(maxId - step + 1, maxId);
    }
  }

  class SegmentObj {
    const start: int
    const end: int
    var cursor: int

    constructor (start: int, end: int)
      ensures this.start == start && this.end == end && cursor == start - 1
    {
      this.start := start;
      this.end := end;
      cursor := start - 1;
    }

    /** `take`. Calls do not overlap here, so the compare-and-swap succeeds at the first attempt. */
    method Take(n: int) returns (first: int, ok: bool)
      modifies this
      ensures ok <==> old(cursor) + n <= end
      ensures ok ==> first == old(cursor) + 1 && cursor == old(cursor) + n
      ensures !ok ==> cursor == old(cursor)
    {
      var next := cursor + n;
      if next > end { return 0, false; }
      cursor := next;
      return next - n + 1, true;
    }
  }

  class AllocatorObj {
    const row: Row
    const step: int
    var cur: SegmentObj
    var buf: SegmentObj?
    var last: int

    ghost predicate Shaped()
      reads this, row, cur, buf
    {
      && cur.end - cur.start + 1 == step && buf != cur
      && (buf != null ==> buf.end - buf.start + 1 == step && buf.cursor == buf.start - 1)
    }

    ghost function View(): Seq
      reads this, row, cur, buf
    {
      Seq(step, row.maxId, cur.end, cur.cursor, if buf == null then None else Some(buf.end), last)
    }

    /** `NewAllocator` once its first load has succeeded. */
    constructor (row: Row, step: int, first: SegmentObj)
      requires step > 0 && first.end == row.maxId
      requires first.end - first.start + 1 == step && first.cursor == first.start - 1
      ensures Shaped() && this.row == row && cur == first && buf == null && View() == New(row.maxId - step, step)
    {
      this.row := row;
      this.step := step;
      cur := first;
      buf := null;
      last := first.start - 1;
    }

    /**
     * `Next`; `loads` is the outcome of the one transaction the call can need, `prefetch` says that a successful
     * call found the segment below the low-water mark with an empty buffer, and started `Refill`.
     */
    method Next(n: int, loads: bool) returns (r: Result, prefetch: bool)
      requires Shaped() && Good(View())
      modifies this, row, cur, buf
      ensures Shaped() && (View(), r) == NextOf(old(View()), n, loads)
      ensures prefetch == (r.Taken? && cur.end - cur.cursor < step / 10 && buf == null)
      ensures (cur == old(cur) || cur == old(buf) || fresh(cur)) && (buf == old(buf) || buf == null)
    {
      if n <= 0 || n > step { return TooLarge, false; }
      ghost var swapped := false;
      while true
        invariant Shaped() && last == old(last)
        invariant !swapped ==> View() == old(View()) && cur == old(cur) && buf == old(buf)
        invariant swapped ==> old(cur.cursor) + n > old(cur.end) && Swap(old(View()), loads) == Some(View())
        invariant swapped ==> buf == null && (cur == old(buf) || fresh(cur)) && cur.cursor + n <= cur.end
        decreases !swapped
      {
        var first, ok := cur.Take(n);
        if ok {
          last := first + n - 1;
          return Taken(first), cur.end - cur.cursor < step / 10 && buf == null;
        }
        var swaps := SwapSync(loads);
        if !swaps { return LoadFailed, false; }
        swapped := true;
      }
    }

    /** `swapSync`. */
    method SwapSync(loads: bool) returns (ok: bool)
      requires Shaped() && step > 0
      modifies this`cur, this`buf, row
      ensures Shaped() && last == old(last)
      ensures Swap(old(View()), loads) == if ok then Some(View()) else None
      ensures !ok ==> View() == old(View()) && cur == old(cur) && buf == old(buf)
      ensures ok ==> buf == null && (cur == old(buf) || fresh(cur)) && cur.cursor == cur.start - 1
    {
      if buf != null {
        cur, buf := buf, null;
        return true;
      }
      var seg := row.TryLoad(step, loads);
      if seg == null { return false; }
      cur := seg;
      return true;
    }

    /** The goroutine of `refillAsync`. */
    method Refill(loads: bool)
      requires Shaped() && Good(View())
      modifies this`buf, row
      ensures Shaped() && View() == Prefetch(old(View()), loads)
      ensures old(buf) != null || !loads ==> buf == old(buf) && row.maxId == old(row.maxId)
      ensures old(buf) == null && loads ==>
                && row.maxId == old(row.maxId) + step && buf != null && fresh(buf)
                && buf.start == old(row.maxId) + 1 && buf.end == row.maxId && buf.cursor == old(row.maxId)
    {
      if buf != null { return; }
      var seg := row.TryLoad(step, loads);
      if seg == null { return; }
      buf := seg;
    }
  }
}
