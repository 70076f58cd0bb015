/**
 * The three coalescing batchers: markBatcher (internal/message/delivery.go), lastSeqBatcher
 * (internal/message/service.go) and RedisSyncSeqClient.backfill/flush (internal/message/seq_client.go).
 *
 * One protocol covers them: `add` merges a value into the buffer under the lock and decides whether a flush
 * is started; a flush takes the buffer, then writes its rows. Every interleaving of adders, timers and
 * flushes is a run of `Step`. A mark is the value 1 for its (conv_id, msg_id).
 */
module Batchers {
  import opened Common

  /** What `add` does after it unlocks. */
  datatype Trigger = Nothing | FlushNow | ArmTimer

  datatype Batch<K(==)> = Batch(buf: map<K, int>, armed: bool)

  /** `capacity` starts a flush at once; a flush of more than `limit` rows writes `limit` and puts the rest back. */
  datatype Config = Config(capacity: nat, limit: Option<nat>)

  const MARKS := Config(32, None)
  const LAST_SEQ := Config(32, None)
  const SYNC_SEQ := Config(64, Some(32))

  function Of<K(!new)>(m: map<K, int>, k: K): int {
    if k in m then m[k] else 0
  }

  function Merge<K(!new)>(m: map<K, int>, k: K, v: int): (r: map<K, int>)
    ensures forall j :: Of(r, j) == if j == k && Of(m, k) < v then v else Of(m, j)
  {
    if Of(m, k) < v then m[k := v] else m
  }

  function Add<K(!new)>(b: Batch<K>, k: K, v: int, capacity: nat): (Batch<K>, Trigger) {
    var buf := Merge(b.buf, k, v);
    if |buf| >= capacity then (Batch(buf, b.armed), FlushNow)
    else if !b.armed then (Batch(buf, true), ArmTimer)
    else (Batch(buf, true), Nothing)
  }

  // ---- The protocol ----

  /** A flush that has taken `rows`; `size` rows at first, `written` so far. */
  datatype Flight<K(==)> = Flight(rows: map<K, int>, size: nat, written: nat)

  /**
   * `owed`: adders that have unlocked but not yet started their flush or timer. `pending`: flushes and timers
   * that have not taken the buffer yet. `column`: the target column. `added` and `lost`: every value ever
   * given to `add`, and every value whose write failed.
   */
  datatype State<K(==)> = State(
    batch: Batch<K>, owed: nat, pending: nat, flights: seq<Flight<K>>, column: map<K, int>,
    ghost added: set<(K, int)>, ghost lost: set<(K, int)>)

  datatype Action<K> =
    | AddValue(k: K, v: int)
    | StartFlush
    | TakeBuffer
    | WriteRow(i: nat, k: K, ok: bool)
    | PutBack(i: nat, k: K)

  function AddTo<K(!new)>(s: State<K>, k: K, v: int, c: Config): State<K> {
    var (b, trigger) := Add(s.batch, k, v, c.capacity);
    s.(batch := b, owed := s.owed + (if trigger.Nothing? then 0 else 1))
  }

  function Landed<K(!new)>(s: State<K>, i: nat, k: K, wrote: nat): State<K>
    requires i < |s.flights|
  {
    var f := s.flights[i];
    s.(flights := s.flights[i := Flight(f.rows - {k}, f.size, f.written + wrote)])
  }

  predicate OverLimit<K(!new)>(f: Flight<K>, c: Config) {
    c.limit.Some? && f.size > c.limit.value && f.written >= c.limit.value
  }

  ghost function Step<K(!new)>(s: State<K>, a: Action<K>, c: Config): State<K> {
    match a
    case AddValue(k, v) => AddTo(s, k, v, c).(added := s.added + {(k, v)})
    case StartFlush => if s.owed == 0 then s else s.(owed := s.owed - 1, pending := s.pending + 1)
    case TakeBuffer =>
      if s.pending == 0 then s
      else s.(pending := s.pending - 1, batch := Batch(map[], false),
              flights := s.flights + [Flight(s.batch.buf, |s.batch.buf|, 0)])
    case WriteRow(i, k, ok) =>
      if i >= |s.flights| || k !in s.flights[i].rows || OverLimit(s.flights[i], c) then s
      else
        var v := s.flights[i].rows[k];
        var t := Landed(s, i, k, 1);
        if ok then t.(column := Merge(s.column, k, v)) else t.(lost := s.lost + {(k, v)})
    case PutBack(i, k) =>
      if i >= |s.flights| || k !in s.flights[i].rows || !OverLimit(s.flights[i], c) then s
      else AddTo(Landed(s, i, k, 0), k, s.flights[i].rows[k], c)
  }

  ghost function Reach<K(!new)>(s: State<K>, acts: seq<Action<K>>, c: Config): State<K>
    decreases |acts|
  {
    if acts == [] then s else Reach(Step(s, acts[0], c), acts[1..], c)
  }

  function Start<K(!new)>(column: map<K, int>): State<K> {
    State(Batch(map[], false), 0, 0, [], column, {}, {})
  }

  // ---- Invariants ----

  ghost predicate FlightHas<K(!new)>(s: State<K>, i: nat, k: K, v: int) {
    i < |s.flights| && k in s.flights[i].rows && s.flights[i].rows[k] >= v
  }

  ghost predicate LostAbove<K(!new)>(s: State<K>, k: K, v: int) {
    exists w :: (k, w) in s.lost && w >= v
  }

  /** A value given to `add` is reflected in the buffer, in a flight, in the column, or its write has failed. */
  ghost predicate Accounted<K(!new)>(s: State<K>, k: K, v: int) {
    v <= 0 || Of(s.batch.buf, k) >= v || Of(s.column, k) >= v || LostAbove(s, k, v) ||
    (exists i: nat :: FlightHas(s, i, k, v))
  }

  ghost predicate Inv<K(!new)>(s: State<K>) {
    && (s.batch.buf != map[] || s.batch.armed ==> s.owed + s.pending > 0)
    && (forall k, v :: (k, v) in s.added ==> Accounted(s, k, v))
    && (forall k :: k in s.batch.buf ==> (k, s.batch.buf[k]) in s.added)
    && (forall i, k | 0 <= i < |s.flights| && k in s.flights[i].rows :: (k, s.flights[i].rows[k]) in s.added)
  }

  lemma AddKeeps<K(!new)>(s: State<K>, k: K, v: int, c: Config)
    requires Inv(s) && (k, v) in s.added
    ensures Inv(AddTo(s, k, v, c))
  {
    var t := AddTo(s, k, v, c);
    forall j, w | (j, w) in t.added ensures Accounted(t, j, w) {
      assert Accounted(s, j, w);
      if i: nat :| FlightHas(s, i, j, w) { assert FlightHas(t, i, j, w); }
    }
  }

  lemma AddValueKeeps<K(!new)>(s: State<K>, k: K, v: int, c: Config)
    requires Inv(s)
    ensures Inv(Step(s, AddValue(k, v), c))
  {
    var t := Step(s, AddValue(k, v), c);
    forall j, w | (j, w) in t.added ensures Accounted(t, j, w) {
      if (j, w) in s.added {
        assert Accounted(s, j, w);
        if i: nat :| FlightHas(s, i, j, w) { assert FlightHas(t, i, j, w); }
      }
    }
  }

  lemma TakeKeeps<K(!new)>(s: State<K>, c: Config)
    requires Inv(s)
    ensures Inv(Step(s, TakeBuffer, c))
  {
    var t := Step(s, TakeBuffer, c);
    if s.pending > 0 {
      forall j, w | (j, w) in t.added ensures Accounted(t, j, w) {
        assert Accounted(s, j, w);
        if i: nat :| FlightHas(s, i, j, w) { assert FlightHas(t, i, j, w); }
        if w > 0 && Of(s.batch.buf, j) >= w { assert FlightHas(t, |s.flights|, j, w); }
      }
    }
  }

  /** One row of a flight goes to the column, is lost, or is about to go back: the other rows stay accounted for. */
  lemma LandKeeps<K(!new)>(s: State<K>, t: State<K>, i: nat, k: K, wrote: nat)
    requires Inv(s) && i < |s.flights| && k in s.flights[i].rows
    requires t.flights == Landed(s, i, k, wrote).flights && t.batch == s.batch && t.added == s.added
    requires t.owed == s.owed && t.pending == s.pending && s.lost <= t.lost
    requires forall j :: Of(t.column, j) >= Of(s.column, j)
    requires forall w | w <= s.flights[i].rows[k] :: Accounted(t, k, w)
    ensures Inv(t)
  {
    forall j, w | (j, w) in t.added ensures Accounted(t, j, w) {
      assert Accounted(s, j, w);
      if h: nat :| FlightHas(s, h, j, w) {
        if h != i || j != k { assert FlightHas(t, h, j, w); }
      }
      if LostAbove(s, j, w) { assert LostAbove(t, j, w); }
    }
  }

  lemma WriteKeeps<K(!new)>(s: State<K>, i: nat, k: K, ok: bool, c: Config)
    requires Inv(s)
    ensures Inv(Step(s, WriteRow(i, k, ok), c))
  {
    var t := Step(s, WriteRow(i, k, ok), c);
    if i < |s.flights| && k in s.flights[i].rows && !OverLimit(s.flights[i], c) {
      var v := s.flights[i].rows[k];
      forall w | w <= v ensures Accounted(t, k, w) {
        if !ok { assert (k, v) in t.lost && LostAbove(t, k, w); }
      }
      LandKeeps(s, t, i, k, 1);
    }
  }

  /** Putting a row back is landing it and adding it again; in between it is in the buffer's hands. */
  lemma PutBackKeeps<K(!new)>(s: State<K>, i: nat, k: K, c: Config)
    requires Inv(s)
    ensures Inv(Step(s, PutBack(i, k), c))
  {
    var t := Step(s, PutBack(i, k), c);
    if i < |s.flights| && k in s.flights[i].rows && OverLimit(s.flights[i], c) {
      var v := s.flights[i].rows[k];
      assert (k, v) in s.added;
      var u := AddTo(s, k, v, c);
      AddKeeps(s, k, v, c);
      forall w | w <= v ensures Accounted(t, k, w) {}
      LandKeeps(u, t, i, k, 0);
    }
  }

  lemma StepKeeps<K(!new)>(s: State<K>, a: Action<K>, c: Config)
    requires Inv(s)
    ensures Inv(Step(s, a, c))
  {
    match a
    case AddValue(k, v) => AddValueKeeps(s, k, v, c);
    case StartFlush =>
      var t := Step(s, a, c);
      forall j, w | (j, w) in t.added ensures Accounted(t, j, w) {
        assert Accounted(s, j, w);
        if i: nat :| FlightHas(s, i, j, w) { assert FlightHas(t, i, j, w); }
      }
    case TakeBuffer => TakeKeeps(s, c);
    case WriteRow(i, k, ok) => WriteKeeps(s, i, k, ok, c);
    case PutBack(i, k) => PutBackKeeps(s, i, k, c);
  }

  /** The column only rises, and only to values that were added. */
  lemma StepRaises<K(!new)>(s: State<K>, a: Action<K>, c: Config, k: K)
    requires Inv(s)
    ensures Of(Step(s, a, c).column, k) >= Of(s.column, k)
    ensures Of(Step(s, a, c).column, k) > Of(s.column, k) ==> (k, Of(Step(s, a, c).column, k)) in s.added
    ensures s.added <= Step(s, a, c).added && s.lost <= Step(s, a, c).lost
  {
  }

  ghost predicate WritesSucceed<K(!new)>(acts: seq<Action<K>>) {
    forall n | 0 <= n < |acts| :: acts[n].WriteRow? ==> acts[n].ok
  }

  lemma {:induction false} ReachKeeps<K(!new)>(s: State<K>, acts: seq<Action<K>>, c: Config)
    requires Inv(s)
    ensures Inv(Reach(s, acts, c))
    decreases |acts|
  {
    if acts == [] {
    } else {
      StepKeeps(s, acts[0], c);
      ReachKeeps(Step(s, acts[0], c), acts[1..], c);
    }
  }

  ghost predicate OnlyRises<K(!new)>(s: State<K>, t: State<K>, k: K) {
    && s.added <= t.added && Of(t.column, k) >= Of(s.column, k)
    && (Of(t.column, k) > Of(s.column, k) ==> (k, Of(t.column, k)) in t.added)
  }

  lemma {:induction false} ReachRaises<K(!new)>(s: State<K>, acts: seq<Action<K>>, c: Config, k: K)
    requires Inv(s)
    ensures OnlyRises(s, Reach(s, acts, c), k)
    decreases |acts|
  {
    if acts == [] {
    } else {
      var t := Step(s, acts[0], c);
      StepKeeps(s, acts[0], c);
      StepRaises(s, acts[0], c, k);
      ReachRaises(t, acts[1..], c, k);
      assert OnlyRises(s, t, k) && OnlyRises(t, Reach(t, acts[1..], c), k);
    }
  }

  /**
   * No stranded batch, in every interleaving: a non-empty buffer has a flush coming, every value added is
   * buffered, in flight, written or its write has failed, and the column only rises, to values that were added.
   */
  lemma NothingStranded<K(!new)>(column: map<K, int>, acts: seq<Action<K>>, c: Config, k: K, v: int)
    ensures var t := Reach(Start(column), acts, c);
            && (t.batch.buf != map[] ==> t.owed + t.pending > 0)
            && ((k, v) in t.added ==> Accounted(t, k, v))
            && Of(t.column, k) >= Of(column, k)
            && (Of(t.column, k) > Of(column, k) ==> (k, Of(t.column, k)) in t.added)
  {
    ReachKeeps(Start(column), acts, c);
    ReachRaises(Start(column), acts, c, k);
  }

  lemma {:induction false} LostOnlyByFailedWrites<K(!new)>(s: State<K>, acts: seq<Action<K>>, c: Config)
    requires WritesSucceed(acts)
    ensures Reach(s, acts, c).lost == s.lost
    decreases |acts|
  {
    if acts == [] {
    } else {
      assert acts[0].WriteRow? ==> acts[0].ok;
      LostOnlyByFailedWrites(Step(s, acts[0], c), acts[1..], c);
    }
  }

  /** Once nothing is pending and every write succeeded, the column is at or above the largest value added. */
  lemma QuiescentIsComplete<K(!new)>(column: map<K, int>, acts: seq<Action<K>>, c: Config, k: K, v: int)
    requires WritesSucceed(acts)
    requires var t := Reach(Start(column), acts, c);
             && t.owed + t.pending == 0 && (forall i | 0 <= i < |t.flights| :: t.flights[i].rows == map[])
             && (k, v) in t.added && v > 0
    ensures Of(Reach(Start(column), acts, c).column, k) >= v
  {
    NothingStranded(column, acts, c, k, v);
    LostOnlyByFailedWrites(Start(column), acts, c);
  }

  // ---- The limit of a flush ----

  /** Up to the limit every row that is gone has been written; over it exactly `limit` are, and the rest goes back. */
  ghost predicate FlightInv<K(!new)>(f: Flight<K>, c: Config) {
    && |f.rows| + f.written <= f.size
    && (if OverLimit(f, c) then f.written == c.limit.value else |f.rows| + f.written == f.size)
  }

  ghost predicate FlightsInv<K(!new)>(s: State<K>, c: Config) {
    forall i | 0 <= i < |s.flights| :: FlightInv(s.flights[i], c)
  }

  lemma OneRowLess<K(!new)>(rows: map<K, int>, k: K)
    requires k in rows
    ensures |rows - {k}| == |rows| - 1
  {
    assert (rows - {k}).Keys == rows.Keys - {k};
  }

  lemma LandedLimit<K(!new)>(f: Flight<K>, k: K, c: Config)
    requires FlightInv(f, c) && k in f.rows
    ensures FlightInv(Flight(f.rows - {k}, f.size, f.written + if OverLimit(f, c) then 0 else 1), c)
  {
    OneRowLess(f.rows, k);
  }

  /** A row that leaves a flight is written below the limit and put back from there on. */
  lemma FlightLimit<K(!new)>(s: State<K>, a: Action<K>, c: Config)
    requires FlightsInv(s, c)
    ensures FlightsInv(Step(s, a, c), c)
  {
    if (a.WriteRow? || a.PutBack?) && a.i < |s.flights| && a.k in s.flights[a.i].rows {
      LandedLimit(s.flights[a.i], a.k, c);
    }
  }

  lemma {:induction false} ReachLimit<K(!new)>(s: State<K>, acts: seq<Action<K>>, c: Config)
    requires FlightsInv(s, c)
    ensures FlightsInv(Reach(s, acts, c), c)
    decreases |acts|
  {
    if acts == [] {
    } else {
      FlightLimit(s, acts[0], c);
      ReachLimit(Step(s, acts[0], c), acts[1..], c);
    }
  }

  /**
   * In every interleaving a finished flush has written all the rows it took, or exactly `limit` of them if it
   * took more; so the others, size - limit, went back.
   */
  lemma FinishedFlush<K(!new)>(column: map<K, int>, acts: seq<Action<K>>, c: Config, i: nat)
    requires i < |Reach(Start(column), acts, c).flights| && Reach(Start(column), acts, c).flights[i].rows == map[]
    ensures var f := Reach(Start(column), acts, c).flights[i];
            f.written == if c.limit.Some? && f.size > c.limit.value then c.limit.value else f.size
  {
    ReachLimit(Start(column), acts, c);
    assert FlightInv(Reach(Start(column), acts, c).flights[i], c);
  }
}
