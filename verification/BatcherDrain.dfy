/**
 * What the flushes of the batchers achieve: a write that works lands, and from every reachable state the
 * flushes that are coming, with writes that work, bring every value to the column and leave nothing behind.
 */
module BatcherDrain {
  import opened Batchers

  // ---- One row ----

  /** An added value is buffered at once, and a full buffer, or the first value of a batch, calls for a flush. */
  lemma AddReaches<K(!new)>(s: State<K>, k: K, v: int, c: Config)
    ensures var t := Step(s, AddValue(k, v), c);
      && t.added == s.added + {(k, v)} && Of(t.batch.buf, k) >= v
      && Of(t.batch.buf, k) == (if Of(s.batch.buf, k) < v then v else Of(s.batch.buf, k))
      && (forall j | j != k :: Of(t.batch.buf, j) == Of(s.batch.buf, j))
      && t.owed == s.owed + (if |t.batch.buf| >= c.capacity || !s.batch.armed then 1 else 0)
      && t.pending == s.pending && t.flights == s.flights && t.column == s.column && t.lost == s.lost
  {
  }

  /** A write that works takes its row out of the flight, and leaves the column at or above it. */
  lemma WriteLands<K(!new)>(s: State<K>, i: nat, k: K, c: Config)
    requires i < |s.flights| && k in s.flights[i].rows && !OverLimit(s.flights[i], c)
    ensures var t, f := Step(s, WriteRow(i, k, true), c), s.flights[i];
      && t.flights == s.flights[i := Flight(f.rows - {k}, f.size, f.written + 1)]
      && Of(t.column, k) >= f.rows[k] && Of(t.column, k) == (if Of(s.column, k) < f.rows[k] then f.rows[k]
                                                             else Of(s.column, k))
      && (forall j | j != k :: Of(t.column, j) == Of(s.column, j))
      && t.lost == s.lost && t.batch == s.batch && t.owed == s.owed && t.pending == s.pending
  {
  }

  /** A write that fails is gone, and on record. */
  lemma WriteFails<K(!new)>(s: State<K>, i: nat, k: K, c: Config)
    requires i < |s.flights| && k in s.flights[i].rows && !OverLimit(s.flights[i], c)
    ensures var t, f := Step(s, WriteRow(i, k, false), c), s.flights[i];
      && t.flights == s.flights[i := Flight(f.rows - {k}, f.size, f.written + 1)]
      && t.column == s.column && t.lost == s.lost + {(k, f.rows[k])}
  {
  }

  /** A flush that starts takes the whole buffer. */
  lemma TakesAll<K(!new)>(s: State<K>, c: Config)
    requires s.pending > 0
    ensures var t := Step(s, TakeBuffer, c);
      && t.flights == s.flights + [Flight(s.batch.buf, |s.batch.buf|, 0)] && t.batch == Batch(map[], false)
      && t.pending == s.pending - 1 && t.owed == s.owed && t.column == s.column && t.lost == s.lost
  {
  }

  /** A row over the limit goes back into the buffer. */
  lemma PutsBack<K(!new)>(s: State<K>, i: nat, k: K, c: Config)
    requires i < |s.flights| && k in s.flights[i].rows && OverLimit(s.flights[i], c)
    ensures var t, f := Step(s, PutBack(i, k), c), s.flights[i];
      && t.flights == s.flights[i := Flight(f.rows - {k}, f.size, f.written)]
      && Of(t.batch.buf, k) >= f.rows[k] && |t.batch.buf| <= |s.batch.buf| + 1
      && t.column == s.column && t.lost == s.lost
  {
    var b, v := s.batch.buf, s.flights[i].rows[k];
    assert (b[k := v]).Keys == b.Keys + {k};
  }

  /** A flush of the sync batcher that has finished has written all its rows, or 32 of them. */
  lemma SyncFlush<K(!new)>(column: map<K, int>, acts: seq<Action<K>>, i: nat)
    requires var s := Reach(Start(column), acts, SYNC_SEQ); i < |s.flights| && s.flights[i].rows == map[]
    ensures var f := Reach(Start(column), acts, SYNC_SEQ).flights[i]; f.written == if f.size > 32 then 32 else f.size
  {
    FinishedFlush(column, acts, SYNC_SEQ, i);
  }

  // ---- Draining one flight ----

  /** From s to t flight i has been emptied, nothing was lost, and the others are untouched. */
  ghost predicate Emptied<K(!new)>(s: State<K>, t: State<K>, i: nat) {
    && i < |s.flights| == |t.flights| && t.flights[i].rows == map[] && t.lost == s.lost && t.added == s.added
    && forall j | 0 <= j < |s.flights| && j != i :: t.flights[j] == s.flights[j]
  }

  /** One row written, or put back: what is left of the flight is one row smaller. */
  function MoveRow<K(!new)>(f: Flight<K>, i: nat, k: K, c: Config): Action<K> {
    if OverLimit(f, c) then PutBack(i, k) else WriteRow(i, k, true)
  }

  lemma RowMoves<K(!new)>(s: State<K>, i: nat, k: K, c: Config)
    requires i < |s.flights| && k in s.flights[i].rows
    ensures var t := Step(s, MoveRow(s.flights[i], i, k, c), c);
      && |t.flights| == |s.flights| && t.lost == s.lost && t.added == s.added
      && t.flights[i].rows == s.flights[i].rows - {k} && |t.flights[i].rows| == |s.flights[i].rows| - 1
      && (forall j | 0 <= j < |s.flights| && j != i :: t.flights[j] == s.flights[j])
      && |t.batch.buf| <= |s.batch.buf| + (if OverLimit(s.flights[i], c) then 1 else 0)
  {
    OneRowLess(s.flights[i].rows, k);
    if OverLimit(s.flights[i], c) { PutsBack(s, i, k, c); } else { WriteLands(s, i, k, c); }
  }

  lemma FirstAct<K(!new)>(s: State<K>, a: Action<K>, rest: seq<Action<K>>, c: Config)
    ensures Reach(s, [a] + rest, c) == Reach(Step(s, a, c), rest, c)
    ensures WritesSucceed(rest) && (a.WriteRow? ==> a.ok) ==> WritesSucceed([a] + rest)
  {
    assert ([a] + rest)[1..] == rest;
  }

  lemma {:induction false} ThenActs<K(!new)>(s: State<K>, a: seq<Action<K>>, b: seq<Action<K>>, c: Config)
    ensures Reach(s, a + b, c) == Reach(Reach(s, a, c), b, c)
    ensures WritesSucceed(a) && WritesSucceed(b) ==> WritesSucceed(a + b)
    decreases |a|
  {
    if a == [] {
      assert a + b == b;
    } else {
      assert (a + b)[1..] == a[1..] + b;
      ThenActs(Step(s, a[0], c), a[1..], b, c);
    }
  }

  /** Every flight can be finished: rows up to the limit are written, the others put back. */
  lemma {:induction false} DrainFlight<K(!new)>(s: State<K>, i: nat, c: Config) returns (acts: seq<Action<K>>)
    requires i < |s.flights|
    ensures WritesSucceed(acts) && Emptied(s, Reach(s, acts, c), i) && (s.flights[i].rows == map[] ==> acts == [])
    ensures var f := s.flights[i];
      |Reach(s, acts, c).batch.buf| <= |s.batch.buf| + |f.rows|
        - if f.rows != map[] && !OverLimit(f, c) then 1 else 0
    decreases |s.flights[i].rows|
  {
    if s.flights[i].rows == map[] {
      acts := [];
    } else {
      var k :| k in s.flights[i].rows;
      var a := MoveRow(s.flights[i], i, k, c);
      RowMoves(s, i, k, c);
      var rest := DrainFlight(Step(s, a, c), i, c);
      FirstAct(s, a, rest, c);
      acts := [a] + rest;
    }
  }

  // ---- Draining everything ----

  ghost predicate FlightsEmpty<K(!new)>(s: State<K>, n: nat) {
    n <= |s.flights| && forall i | 0 <= i < n :: s.flights[i].rows == map[]
  }

  lemma {:induction false} DrainFlights<K(!new)>(s: State<K>, n: nat, c: Config) returns (acts: seq<Action<K>>)
    requires n <= |s.flights|
    ensures WritesSucceed(acts)
    ensures var t := Reach(s, acts, c); |t.flights| == |s.flights| && FlightsEmpty(t, n) && t.lost == s.lost
    decreases n
  {
    if n == 0 {
      acts := [];
    } else {
      var first := DrainFlights(s, n - 1, c);
      var t := Reach(s, first, c);
      var last := DrainFlight(t, n - 1, c);
      ThenActs(s, first, last, c);
      acts := first + last;
    }
  }

  /** Nothing is pending, in flight or in the buffer. */
  ghost predicate AtRest<K(!new)>(s: State<K>) {
    s.owed + s.pending == 0 && FlightsEmpty(s, |s.flights|) && s.batch.buf == map[]
  }

  /** With no row in flight: the coming flushes start, take the buffer and write it, a limit at a time. */
  lemma {:induction false} DrainBuffer<K(!new)>(s: State<K>, c: Config) returns (acts: seq<Action<K>>)
    requires Inv(s) && FlightsEmpty(s, |s.flights|) && (c.limit.Some? ==> c.limit.value > 0)
    ensures WritesSucceed(acts) && AtRest(Reach(s, acts, c)) && Reach(s, acts, c).lost == s.lost
    decreases |s.batch.buf|, 2 * s.owed + s.pending
  {
    if s.owed > 0 {
      StepKeeps(s, StartFlush, c);
      var rest := DrainBuffer(Step(s, StartFlush, c), c);
      FirstAct(s, StartFlush, rest, c);
      acts := [StartFlush] + rest;
    } else if s.pending > 0 {
      acts := TakeAndDrain(s, c);
    } else {
      acts := [];
    }
  }

  lemma TakeAndDrain<K(!new)>(s: State<K>, c: Config) returns (acts: seq<Action<K>>)
    requires Inv(s) && FlightsEmpty(s, |s.flights|) && (c.limit.Some? ==> c.limit.value > 0)
    requires s.pending > 0 && s.owed == 0
    ensures WritesSucceed(acts) && AtRest(Reach(s, acts, c)) && Reach(s, acts, c).lost == s.lost
    decreases |s.batch.buf|, 2 * s.owed + s.pending, 0
  {
    TakesAll(s, c);
    StepKeeps(s, TakeBuffer, c);
    var t := Step(s, TakeBuffer, c);
    var flight := DrainFlight(t, |s.flights|, c);
    var u := Reach(t, flight, c);
    ReachKeeps(t, flight, c);
    var rest := DrainBuffer(u, c);
    ThenActs(t, flight, rest, c);
    FirstAct(s, TakeBuffer, flight + rest, c);
    acts := [TakeBuffer] + (flight + rest);
  }

  /** A row counts as written if the column is at or above it; otherwise a write of it has failed before. */
  ghost predicate Landed<K(!new)>(s: State<K>, before: State<K>, k: K, v: int) {
    v <= 0 || Of(s.column, k) >= v || LostAbove(before, k, v)
  }

  lemma RestIsComplete<K(!new)>(s: State<K>, before: State<K>, k: K, v: int)
    requires Inv(s) && AtRest(s) && s.lost == before.lost && (k, v) in s.added
    ensures Landed(s, before, k, v)
  {
    assert Accounted(s, k, v);
  }

  /**
   * Every reachable state can be drained: some continuation in which every write works leaves no flush owed or
   * pending, no row in flight or buffered, and every value added in the column or above, unless a write of it
   * had failed before.
   */
  lemma Drains<K(!new)>(column: map<K, int>, acts: seq<Action<K>>, c: Config) returns (more: seq<Action<K>>)
    requires c.limit.Some? ==> c.limit.value > 0
    ensures WritesSucceed(more)
    ensures var s, t := Reach(Start(column), acts, c), Reach(Start(column), acts + more, c);
      && AtRest(t) && s.added <= t.added && forall k, v | (k, v) in t.added :: Landed(t, s, k, v)
  {
    var start := Start(column);
    var s := Reach(start, acts, c);
    ReachKeeps(start, acts, c);
    var flights := DrainFlights(s, |s.flights|, c);
    var u := Reach(s, flights, c);
    ReachKeeps(s, flights, c);
    var buffer := DrainBuffer(u, c);
    ReachKeeps(u, buffer, c);
    more := flights + buffer;
    ThenActs(s, flights, buffer, c);
    ThenActs(start, acts, more, c);
    var t := Reach(start, acts + more, c);
    AddedGrows(s, more, c);
    forall k, v | (k, v) in t.added ensures Landed(t, s, k, v) {
      RestIsComplete(t, s, k, v);
    }
  }

  lemma {:induction false} AddedGrows<K(!new)>(s: State<K>, acts: seq<Action<K>>, c: Config)
    ensures s.added <= Reach(s, acts, c).added
    decreases |acts|
  {
    if acts == [] {
    } else {
      AddedGrows(Step(s, acts[0], c), acts[1..], c);
    }
  }
}
