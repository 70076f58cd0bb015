/** The three batchers as the objects of the source; each method is one locked region of the protocol in Batchers. */
module BatcherImpl {
  import opened Common
  import opened Batchers

  class LastSeqBatcher {
    var buf: map<int, int>
    var arm: bool
    var lastSeq: map<int, int>   // conversations.last_seq

    constructor (lastSeq: map<int, int>)
      ensures Batch(buf, arm) == Batch(map[], false) && this.lastSeq == lastSeq
    {
      buf, arm := map[], false;
      this.lastSeq := lastSeq;
    }

    method AddSeq(conv: int, convSeq: int) returns (trigger: Trigger)
      modifies this`buf, this`arm
      ensures (Batch(buf, arm), trigger) == Add(old(Batch(buf, arm)), conv, convSeq, LAST_SEQ.capacity)
      ensures trigger == if |buf| >= 32 then FlushNow else if old(arm) then Nothing else ArmTimer
    {
      if (if conv in buf then buf[conv] else 0) < convSeq { buf := buf[conv := convSeq]; }
      var full := |buf| >= 32;
      var needArm := !full && !arm;
      if needArm { arm := true; }
      return if full then FlushNow else if needArm then ArmTimer else Nothing;
    }

    method TakeRows() returns (rows: map<int, int>)
      modifies this`buf, this`arm
      ensures rows == old(buf) && Batch(buf, arm) == Batch(map[], false)
    {
      rows := buf;
      buf, arm := map[], false;
    }

    /** UPDATE conversations SET last_seq = v WHERE conv_id = conv AND last_seq < v. */
    method Bump(conv: int, v: int)
      modifies this`lastSeq
      ensures lastSeq.Keys == old(lastSeq).Keys
      ensures forall x | x in lastSeq ::
                lastSeq[x] == if x == conv && old(lastSeq)[x] < v then v else old(lastSeq)[x]
    {
      if conv in lastSeq && lastSeq[conv] < v { lastSeq := lastSeq[conv := v]; }
    }

    /**
     * `flush`: the buffer is taken, and every conversation in it whose UPDATE does not fail ends at the greater
     * of its old last_seq and the buffered one.
     */
    method Flush(fails: set<int>)
      modifies this
      ensures Batch(buf, arm) == Batch(map[], false) && lastSeq.Keys == old(lastSeq).Keys
      ensures forall x | x in lastSeq ::
                lastSeq[x] == if x in old(buf) && x !in fails && old(lastSeq)[x] < old(buf)[x] then old(buf)[x]
                              else old(lastSeq)[x]
    {
      var rows := TakeRows();
      var todo: set<int> := rows.Keys;
      while todo != {}
        invariant todo <= rows.Keys && lastSeq.Keys == old(lastSeq).Keys && Batch(buf, arm) == Batch(map[], false)
        invariant forall x | x in lastSeq ::
                    lastSeq[x] == if x in rows && x !in todo && x !in fails && old(lastSeq)[x] < rows[x] then rows[x]
                                  else old(lastSeq)[x]
        decreases |todo|
      {
        var conv := Next(todo);
        if conv !in fails { Bump(conv, rows[conv]); }
        todo := todo - {conv};
      }
    }
  }

  type Mark = (int, int)

  class MarkBatcher {
    var buf: map<int, set<Mark>>
    var arms: map<int, bool>
    var status: map<Mark, int>   // local_message of all shards

    /** One shard's buffer, a mark being the value 1. */
    ghost function Shard(shard: int): Batch<Mark>
      reads this
    {
      Batch(if shard in buf then AsMap(buf[shard]) else map[], shard in arms && arms[shard])
    }

    constructor (status: map<Mark, int>)
      ensures this.status == status && forall shard :: Shard(shard) == Batch(map[], false)
    {
      buf, arms := map[], map[];
      this.status := status;
    }

    method AddMark(shard: int, mark: Mark) returns (trigger: Trigger)
      modifies this`buf, this`arms
      ensures (Shard(shard), trigger) == Add(old(Shard(shard)), mark, 1, MARKS.capacity)
      ensures trigger == if |Shard(shard).buf| >= 32 then FlushNow
                         else if old(Shard(shard).armed) then Nothing else ArmTimer
      ensures forall other | other != shard :: Shard(other) == old(Shard(other))
    {
      ghost var before := Shard(shard).buf;
      var marks := (if shard in buf then buf[shard] else {}) + {mark};
      AsMapAdd(if shard in buf then buf[shard] else {}, mark);
      buf := buf[shard := marks];
      assert Shard(shard).buf == Merge(before, mark, 1);
      var full := |marks| >= 32;
      var needArm := !full && !(shard in arms && arms[shard]);
      if needArm { arms := arms[shard := true]; }
      return if full then FlushNow else if needArm then ArmTimer else Nothing;
    }

    method TakeMarks(shard: int) returns (marks: set<Mark>)
      modifies this`buf, this`arms
      ensures AsMap(marks) == old(Shard(shard)).buf && Shard(shard) == Batch(map[], false)
      ensures forall other | other != shard :: Shard(other) == old(Shard(other))
    {
      marks := if shard in buf then buf[shard] else {};
      AsMapAdd({}, (0, 0));
      buf := buf[shard := {}];
      arms := arms[shard := false];
    }

    /** `flush`: one UPDATE ... SET status = 1 WHERE status = 0 AND the row is among the marks; `ok` its outcome. */
    method Flush(shard: int, ok: bool)
      modifies this
      ensures Shard(shard) == Batch(map[], false)
      ensures forall other | other != shard :: Shard(other) == old(Shard(other))
      ensures status.Keys == old(status).Keys
      ensures forall r | r in status ::
                status[r] == if ok && r in old(Shard(shard)).buf && old(status)[r] == 0 then 1 else old(status)[r]
    {
      var marks := TakeMarks(shard);
      if |marks| == 0 { return; }
      if ok { status := map r | r in status :: if r in marks && status[r] == 0 then 1 else status[r]; }
    }
  }

  function AsMap(marks: set<Mark>): map<Mark, int> {
    map m | m in marks :: 1
  }

  lemma AsMapAdd(marks: set<Mark>, mark: Mark)
    ensures AsMap(marks + {mark}) == Merge(AsMap(marks), mark, 1)
    ensures |AsMap(marks + {mark})| == |marks + {mark}|
    ensures AsMap({}) == map[]
  {
    assert AsMap(marks + {mark}).Keys == marks + {mark};
  }

  class SyncBackfill {
    var buf: map<int, int>
    var armed: bool
    var maxId: map<int, int>   // the seq_segment rows of biz 'sync'

    method Backfill(uid: int, v: int) returns (trigger: Trigger)
      modifies this`buf, this`armed
      ensures (Batch(buf, armed), trigger) == Add(old(Batch(buf, armed)), uid, v, SYNC_SEQ.capacity)
      ensures trigger == if |buf| >= 64 then FlushNow else if old(armed) then Nothing else ArmTimer
    {
      if (if uid in buf then buf[uid] else 0) < v { buf := buf[uid := v]; }
      var full := |buf| >= 64;
      var needArm := !full && !armed;
      if needArm { armed := true; }
      return if full then FlushNow else if needArm then ArmTimer else Nothing;
    }

    /** ... ON DUPLICATE KEY UPDATE max_id = GREATEST(max_id, v), a missing row reading as 0; it may fail. */
    method WriteBack(uid: int, v: int, ok: bool)
      modifies this`maxId
      ensures maxId == if ok then Merge(old(maxId), uid, v) else old(maxId)
    {
      if ok && (if uid in maxId then maxId[uid] else 0) < v { maxId := maxId[uid := v]; }
    }

    /** Other callers of `backfill`, one after the other; `restarts` counts the flushes and timers they start. */
    method BackfillAll(adds: seq<(int, int)>) returns (restarts: nat)
      requires forall uid :: Of(buf, uid) >= 0
      modifies this`buf, this`armed
      ensures forall uid :: Of(buf, uid) == Max(Of(old(buf), uid), Largest(adds, uid))
      ensures old(buf) == map[] && !old(armed) ==> restarts > 0 || (buf == map[] && !armed)
    {
      restarts := 0;
      var i := 0;
      while i < |adds|
        invariant i <= |adds|
        invariant forall uid :: Of(buf, uid) == Max(Of(old(buf), uid), Largest(adds[..i], uid))
        invariant old(buf) == map[] && !old(armed) ==> restarts > 0 || (buf == map[] && !armed)
      {
        var trigger := Backfill(adds[i].0, adds[i].1);
        if trigger != Nothing { restarts := restarts + 1; }
        assert adds[..i + 1][..i] == adds[..i];
        i := i + 1;
      }
      assert adds[..i] == adds;
    }

    /**
     * `flush`, with other callers adding before each of its turns and after the last: at most 32 rows are written
     * and a smaller batch completely; the column is raised to exactly those whose write does not fail, and the
     * buffer holds exactly the rows not written and what the others added. `restarts` counts the flushes and
     * timers that are started meanwhile: nothing is left without one.
     */
    method Flush(fails: set<int>, others: seq<seq<(int, int)>>) returns (ghost written: set<int>, restarts: nat)
      requires |others| == |buf| + 1
      modifies this
      ensures written <= old(buf).Keys && |written| == if |old(buf)| > 32 then 32 else |old(buf)|
      ensures Raised(maxId, old(maxId), old(buf), written - fails)
      ensures Holds(buf, old(buf), old(buf).Keys - written, Joined(others))
      ensures buf != map[] || armed ==> restarts > 0
    {
      var rows := buf;
      buf, armed := map[], false;
      written, restarts := {}, 0;
      var todo: set<int> := rows.Keys;
      var n, turn := 0, 0;
      while todo != {}
        invariant |todo| + turn == |rows|
        invariant Flushing(rows, todo, written, fails, n, maxId, old(maxId), buf, Joined(others[..turn]))
        invariant restarts > 0 || (buf == map[] && !armed)
        decreases |todo|
      {
        var uid := Next(todo);
        Counts(rows, todo, uid);
        var back := |rows| > 32 && n >= 32;
        var more := FlushTurn(rows, todo, written, fails, n, old(maxId), others, turn, uid, back);
        restarts := restarts + more;
        if !back { written, n := written + {uid}, n + 1; }
        todo, turn := todo - {uid}, turn + 1;
      }
      var more := Meanwhile(rows, todo, written, fails, n, old(maxId), others, turn);
      restarts := restarts + more;
      assert others[..turn + 1] == others;
      Flushed(rows, written, fails, n, maxId, old(maxId), buf, Joined(others));
    }

    /** One turn of the loop, after what the others add. */
    method FlushTurn(rows: map<int, int>, ghost todo: set<int>, ghost written: set<int>, fails: set<int>, ghost n: nat,
                     ghost before: map<int, int>, others: seq<seq<(int, int)>>, turn: nat, uid: int, back: bool)
      returns (restarts: nat)
      requires turn < |others| && uid in todo && back == (|rows| > 32 && n >= 32)
      requires Flushing(rows, todo, written, fails, n, maxId, before, buf, Joined(others[..turn]))
      modifies this
      ensures Flushing(rows, todo - {uid}, if back then written else written + {uid}, fails,
                       if back then n else n + 1, maxId, before, buf, Joined(others[..turn + 1]))
      ensures old(buf) == map[] && !old(armed) ==> restarts > 0 || (buf == map[] && !armed)
    {
      var more := Meanwhile(rows, todo, written, fails, n, before, others, turn);
      restarts := FlushRow(rows, todo, written, fails, n, before, Joined(others[..turn + 1]), uid, back);
      restarts := restarts + more;
    }

    /** The row goes back into the buffer, or is written. */
    method FlushRow(rows: map<int, int>, ghost todo: set<int>, ghost written: set<int>, fails: set<int>, ghost n: nat,
                    ghost before: map<int, int>, ghost adds: seq<(int, int)>, uid: int, back: bool)
      returns (restarts: nat)
      requires uid in todo && Flushing(rows, todo, written, fails, n, maxId, before, buf, adds)
      requires back == (|rows| > 32 && n >= 32)
      modifies this
      ensures Flushing(rows, todo - {uid}, if back then written else written + {uid}, fails,
                       if back then n else n + 1, maxId, before, buf, adds)
      ensures old(buf) == map[] && !old(armed) ==> restarts > 0 || (buf == map[] && !armed)
    {
      restarts := 0;
      if back {
        PutsBack(rows, todo, written, fails, n, maxId, before, buf, uid, adds);
        var trigger := Backfill(uid, rows[uid]);
        if trigger != Nothing { restarts := 1; }
      } else {
        Writes(rows, todo, written, fails, n, maxId, before, buf, uid, adds);
        WriteBack(uid, rows[uid], uid !in fails);
      }
    }

    /** What the others add before a turn of the flush. */
    method Meanwhile(ghost rows: map<int, int>, ghost todo: set<int>, ghost written: set<int>, ghost fails: set<int>,
                     ghost n: nat, ghost before: map<int, int>, others: seq<seq<(int, int)>>, turn: nat)
      returns (restarts: nat)
      requires turn < |others| && Flushing(rows, todo, written, fails, n, maxId, before, buf, Joined(others[..turn]))
      modifies this`buf, this`armed
      ensures Flushing(rows, todo, written, fails, n, maxId, before, buf, Joined(others[..turn + 1]))
      ensures old(buf) == map[] && !old(armed) ==> restarts > 0 || (buf == map[] && !armed)
    {
      restarts := BackfillAll(others[turn]);
      assert others[..turn + 1][..turn] == others[..turn];
      LargestJoined(Joined(others[..turn]), others[turn]);
    }
  }

  function Max(a: int, b: int): int {
    if a < b then b else a
  }

  /** The largest value added for uid, 0 if there is none above. */
  function Largest(adds: seq<(int, int)>, uid: int): nat {
    if adds == [] then 0
    else Max(Largest(adds[..|adds| - 1], uid), if adds[|adds| - 1].0 == uid then adds[|adds| - 1].1 else 0)
  }

  function Joined(others: seq<seq<(int, int)>>): seq<(int, int)> {
    if others == [] then [] else Joined(others[..|others| - 1]) + others[|others| - 1]
  }

  lemma {:induction false} LargestConcat(a: seq<(int, int)>, b: seq<(int, int)>, uid: int)
    ensures Largest(a + b, uid) == Max(Largest(a, uid), Largest(b, uid))
  {
    if b == [] {
      assert a + b == a;
    } else {
      LargestConcat(a, b[..|b| - 1], uid);
      assert (a + b)[..|a + b| - 1] == a + b[..|b| - 1];
    }
  }

  lemma LargestJoined(a: seq<(int, int)>, b: seq<(int, int)>)
    ensures forall uid :: Largest(a + b, uid) == Max(Largest(a, uid), Largest(b, uid))
  {
    forall uid ensures Largest(a + b, uid) == Max(Largest(a, uid), Largest(b, uid)) {
      LargestConcat(a, b, uid);
    }
  }

  predicate Parted(rows: map<int, int>, todo: set<int>, written: set<int>) {
    todo <= rows.Keys && written <= rows.Keys - todo
  }

  ghost predicate Counted(rows: map<int, int>, todo: set<int>, written: set<int>, n: nat) {
    n == |written| == (if |rows| - |todo| <= 32 then |rows| - |todo| else 32)
  }

  ghost predicate Raised(column: map<int, int>, before: map<int, int>, rows: map<int, int>, written: set<int>)
    requires written <= rows.Keys
  {
    forall uid ::
      Of(column, uid) == if uid in written && Of(before, uid) < rows[uid] then rows[uid] else Of(before, uid)
  }

  ghost predicate Holds(buf: map<int, int>, rows: map<int, int>, back: set<int>, adds: seq<(int, int)>)
    requires back <= rows.Keys
  {
    forall uid :: Of(buf, uid) == Max(if uid in back then rows[uid] else 0, Largest(adds, uid))
  }

  /** Where a flush stands: `todo` is left, `written` has been written or failed, the rest is back in the buffer. */
  ghost predicate Flushing(rows: map<int, int>, todo: set<int>, written: set<int>, fails: set<int>, n: nat,
                           column: map<int, int>, before: map<int, int>, buf: map<int, int>,
                           adds: seq<(int, int)>) {
    && Parted(rows, todo, written) && Counted(rows, todo, written, n)
    && Raised(column, before, rows, written - fails) && Holds(buf, rows, rows.Keys - todo - written, adds)
  }

  lemma PutsBack(rows: map<int, int>, todo: set<int>, written: set<int>, fails: set<int>, n: nat,
                 column: map<int, int>, before: map<int, int>, buf: map<int, int>, uid: int, adds: seq<(int, int)>)
    requires uid in todo && Flushing(rows, todo, written, fails, n, column, before, buf, adds) && n >= 32
    ensures uid in rows
    ensures Flushing(rows, todo - {uid}, written, fails, n, column, before, Merge(buf, uid, rows[uid]), adds)
  {
    Counts(rows, todo, uid);
  }

  lemma Writes(rows: map<int, int>, todo: set<int>, written: set<int>, fails: set<int>, n: nat,
               column: map<int, int>, before: map<int, int>, buf: map<int, int>, uid: int, adds: seq<(int, int)>)
    requires uid in todo && Flushing(rows, todo, written, fails, n, column, before, buf, adds)
    requires !(|rows| > 32 && n >= 32)
    ensures uid in rows
    ensures var after := if uid in fails then column else Merge(column, uid, rows[uid]);
      Flushing(rows, todo - {uid}, written + {uid}, fails, n + 1, after, before, buf, adds)
  {
    Counts(rows, todo, uid);
    assert rows.Keys - (todo - {uid}) - (written + {uid}) == rows.Keys - todo - written;
  }

  lemma Flushed(rows: map<int, int>, written: set<int>, fails: set<int>, n: nat,
                column: map<int, int>, before: map<int, int>, buf: map<int, int>, adds: seq<(int, int)>)
    requires Flushing(rows, {}, written, fails, n, column, before, buf, adds)
    ensures written <= rows.Keys && |written| == if |rows| > 32 then 32 else |rows|
    ensures Raised(column, before, rows, written - fails) && Holds(buf, rows, rows.Keys - written, adds)
  {
    assert rows.Keys - {} - written == rows.Keys - written;
  }

  lemma Counts(rows: map<int, int>, todo: set<int>, uid: int)
    requires todo <= rows.Keys && uid in todo
    ensures |rows| == |rows.Keys| && |todo| <= |rows| && |todo - {uid}| == |todo| - 1
  {
    assert |rows.Keys - todo| + |todo| == |rows.Keys| by { assert (rows.Keys - todo) + todo == rows.Keys; }
  }
}
