/**
 * Idempotent send (internal/message/service.go, SendMessage; internal/cache/cache.go, Idem*). The message
 * table with its unique key (conv_id, client_msg_id), and the Redis marker for that key. Sends on one key do
 * not overlap. Every fallible call is an outcome in `Env`; markers may expire between calls and inside one.
 */
module Send {
  import opened Common

  datatype Key = Key(conv: int, clientMsgId: int)

  datatype Val = Val(msgId: int, convSeq: int)

  datatype World = World(rows: map<Key, Val>, markers: map<Key, Val>)

  datatype Result = Success(v: Val) | NotMember | Failed

  /** SETNX answers, or fails without or with having set the marker. */
  datatype Put = Answers | PutLost | PutDoneButFailed

  /** Commit succeeds, fails, or takes effect although its caller sees an error. */
  datatype Commit = Commits | Aborts | CommitsButFails

  datatype Env = Env(
    cached: bool,             // the service has a cache, hence also a Bloom filter
    metaOk: bool, member: bool,
    maybeSeen: bool,          // the Bloom answer, right or wrong
    getOk: bool,              // Redis answers the first IdemGet
    convSeq: Option<int>, msgId: Option<int>,
    put: Put, expires: bool,  // the marker found by SETNX expires before the second IdemGet
    getAgainOk: bool, queryOk: bool,
    marshalOk: bool, beginOk: bool, insertOk: bool, localOk: bool, commit: Commit,
    delOk: bool,              // a marker delete takes effect
    queryAgainOk: bool)

  function Del(w: World, k: Key, e: Env): World {
    if e.cached && e.delOk then w.(markers := w.markers - {k}) else w
  }

  /** The marker after IdemPut, and whether IdemPut reported an existing one. */
  function PutMarker(w: World, k: Key, v: Val, e: Env): (World, bool) {
    if e.put.PutLost? then (w, false)
    else if k in w.markers then (w, e.put.Answers?)
    else (w.(markers := w.markers[k := v]), false)
  }

  function Insert(w: World, k: Key, v: Val, e: Env): (World, Result) {
    if !e.marshalOk then (Del(w, k, e), Failed)
    else if !e.beginOk then (w, Failed)
    else if k in w.rows then (Del(w, k, e), if e.queryAgainOk then Success(w.rows[k]) else Failed)
    else if !e.insertOk || !e.localOk then (Del(w, k, e), Failed)
    else
      match e.commit
      case Commits => (w.(rows := w.rows[k := v]), Success(v))
      case Aborts => (Del(w, k, e), Failed)
      case CommitsButFails => (Del(w.(rows := w.rows[k := v]), k, e), Failed)
  }

  function SendOnce(w: World, k: Key, e: Env): (World, Result) {
    if !e.metaOk then (w, Failed)
    else if !e.member then (w, NotMember)
    else if e.cached && e.maybeSeen && e.getOk && k in w.markers then (w, Success(w.markers[k]))
    else if e.convSeq.None? || e.msgId.None? then (w, Failed)
    else
      var v := Val(e.msgId.value, e.convSeq.value);
      if !e.cached then Insert(w, k, v, e)
      else
        var (w1, found) := PutMarker(w, k, v, e);
        if !found then Insert(w1, k, v, e)
        else
          var w2 := if e.expires then w1.(markers := w1.markers - {k}) else w1;
          if e.getAgainOk && k in w2.markers then (w2, Success(w2.markers[k]))
          else if e.queryOk && k in w2.rows then (w2, Success(w2.rows[k]))
          else Insert(w2, k, v, e)
  }

  // ---- Refinement of a write-once map ----

  function WriteOnce(m: map<Key, Val>, k: Key, v: Val): map<Key, Val> {
    if k in m then m else m[k := v]
  }

  /** Every marker left between calls equals a committed row. */
  ghost predicate MarkersTrue(w: World) {
    forall k :: k in w.markers ==> k in w.rows && w.markers[k] == w.rows[k]
  }

  /**
   * The call leaves a marker for a row that was not committed: it set the marker, and then either the
   * transaction could not begin (that path does not delete it) or a later failure could not delete it.
   */
  predicate LeavesOrphan(w: World, k: Key, e: Env) {
    && e.metaOk && e.member && e.cached && e.convSeq.Some? && e.msgId.Some?
    && k !in w.markers && !e.put.PutLost?
    && ((e.marshalOk && !e.beginOk && !(k in w.rows && w.rows[k] == Val(e.msgId.value, e.convSeq.value)))
        || (!e.delOk && (!e.marshalOk || e.beginOk) && !EndsCommitted(w, k, e)))
  }

  /** The row under k after the insert attempt is the one the call tried to write. */
  predicate EndsCommitted(w: World, k: Key, e: Env)
    requires e.msgId.Some? && e.convSeq.Some?
  {
    if k in w.rows then w.rows[k] == Val(e.msgId.value, e.convSeq.value)
    else e.marshalOk && e.insertOk && e.localOk && !e.commit.Aborts?
  }

  /** Only k's entries may differ. */
  ghost predicate OnlyKey(w: World, t: World, k: Key) {
    && (forall x :: x != k ==>
          (x in t.markers <==> x in w.markers) && (x in w.markers ==> t.markers[x] == w.markers[x]))
    && (forall x :: x != k ==> (x in t.rows <==> x in w.rows) && (x in w.rows ==> t.rows[x] == w.rows[x]))
  }

  /** The row and the marker of k, if any, agree. */
  predicate MarkerTrue(w: World, k: Key) {
    k in w.markers ==> k in w.rows && w.markers[k] == w.rows[k]
  }

  lemma InsertRefines(w: World, k: Key, v: Val, e: Env)
    ensures var (t, r) := Insert(w, k, v, e);
            && OnlyKey(w, t, k)
            && (t.rows == w.rows || (k !in w.rows && t.rows == WriteOnce(w.rows, k, v)))
            && (r.Success? ==> k in t.rows && r.v == t.rows[k])
  {
  }

  lemma PutRefines(w: World, k: Key, v: Val, e: Env)
    ensures var t := PutMarker(w, k, v, e).0; OnlyKey(w, t, k) && t.rows == w.rows
  {
  }

  lemma OnlyKeyTwice(a: World, b: World, c: World, k: Key)
    requires OnlyKey(a, b, k) && OnlyKey(b, c, k)
    ensures OnlyKey(a, c, k)
  {
  }

  /**
   * One send refines one write-once operation: at most the row of k is added, no row is ever changed, a success
   * returns the row of k, and other keys are untouched.
   */
  lemma SendRefines(w: World, k: Key, e: Env)
    requires MarkerTrue(w, k)
    ensures var (t, r) := SendOnce(w, k, e);
            && OnlyKey(w, t, k)
            && (t.rows == w.rows || (e.msgId.Some? && e.convSeq.Some? && k !in w.rows
                  && t.rows == WriteOnce(w.rows, k, Val(e.msgId.value, e.convSeq.value))))
            && (r.Success? ==> k in t.rows && r.v == t.rows[k])
  {
    if e.convSeq.Some? && e.msgId.Some? {
      var v := Val(e.msgId.value, e.convSeq.value);
      InsertRefines(w, k, v, e);
      PutRefines(w, k, v, e);
      var w1 := PutMarker(w, k, v, e).0;
      InsertRefines(w1, k, v, e);
      OnlyKeyTwice(w, w1, Insert(w1, k, v, e).0, k);
      var w2 := if e.expires then w1.(markers := w1.markers - {k}) else w1;
      InsertRefines(w2, k, v, e);
      OnlyKeyTwice(w, w2, Insert(w2, k, v, e).0, k);
    }
  }

  /** After the insert attempt the marker of k is true unless it was false and could not be, or was not, deleted. */
  lemma InsertMarker(w: World, k: Key, v: Val, e: Env)
    ensures var t := Insert(w, k, v, e).0;
            MarkerTrue(t, k) <==>
              || k !in w.markers
              || (e.cached && e.delOk &&
                  !(e.marshalOk && (!e.beginOk || (k !in w.rows && e.insertOk && e.localOk && e.commit.Commits?))))
              || (k in t.rows && t.rows[k] == w.markers[k])
  {
  }

  lemma OrphanOfNew(w: World, k: Key, v: Val, e: Env)
    requires k !in w.markers && e.cached && e.msgId.Some? && e.convSeq.Some? && v == Val(e.msgId.value, e.convSeq.value)
    requires e.metaOk && e.member && !e.put.PutLost?
    ensures MarkerTrue(Insert(w.(markers := w.markers[k := v]), k, v, e).0, k) <==> !LeavesOrphan(w, k, e)
  {
    InsertMarker(w.(markers := w.markers[k := v]), k, v, e);
  }

  /** The marker of k is true after the call exactly unless the call leaves an orphan. */
  lemma MarkerTrueIff(w: World, k: Key, e: Env)
    requires MarkerTrue(w, k)
    ensures MarkerTrue(SendOnce(w, k, e).0, k) <==> !LeavesOrphan(w, k, e)
  {
    if e.convSeq.Some? && e.msgId.Some? {
      var v := Val(e.msgId.value, e.convSeq.value);
      InsertMarker(w, k, v, e);
      if k !in w.markers && e.cached && e.metaOk && e.member && !e.put.PutLost? {
        OrphanOfNew(w, k, v, e);
      }
      var w2 := if e.expires then w.(markers := w.markers - {k}) else w;
      InsertMarker(w2, k, v, e);
      if k in w.markers { InsertKeepsTrueRow(w2, k, v, e); InsertKeepsTrueRow(w, k, v, e); }
    }
  }

  lemma InsertKeepsTrueRow(w: World, k: Key, v: Val, e: Env)
    requires MarkerTrue(w, k) && k in w.rows
    ensures MarkerTrue(Insert(w, k, v, e).0, k)
  {
  }

  lemma MarkersTrueIff(w: World, k: Key, e: Env)
    requires MarkersTrue(w)
    ensures MarkersTrue(SendOnce(w, k, e).0) <==> !LeavesOrphan(w, k, e)
  {
    assert MarkerTrue(w, k);
    SendRefines(w, k, e);
    MarkerTrueIff(w, k, e);
    var t := SendOnce(w, k, e).0;
    if MarkerTrue(t, k) {
      forall x | x in t.markers ensures x in t.rows && t.markers[x] == t.rows[x] {
        if x != k { assert x in w.markers; }
      }
    }
  }

  /** A send that finds k committed changes no row, and can only answer with that row or an error. */
  lemma RepeatAnswersSame(w: World, k: Key, e: Env)
    requires MarkersTrue(w) && k in w.rows
    ensures var (t, r) := SendOnce(w, k, e);
            t.rows == w.rows && (r.Success? ==> r.v == w.rows[k])
  {
  }

  // ---- What a send achieves ----

  /** Every call of the send works. */
  predicate NoFault(e: Env) {
    && e.metaOk && e.member && e.getOk && e.convSeq.Some? && e.msgId.Some? && e.put.Answers? && e.getAgainOk
    && e.queryOk && e.marshalOk && e.beginOk && e.insertOk && e.localOk && e.commit.Commits? && e.delOk
    && e.queryAgainOk
  }

  /** The first send of a key stores its own numbers, answers with them, and leaves them in the marker. */
  lemma FirstSendStores(w: World, k: Key, e: Env)
    requires NoFault(e) && k !in w.rows && k !in w.markers
    ensures var v := Val(e.msgId.value, e.convSeq.value);
            SendOnce(w, k, e)
              == (World(w.rows[k := v], if e.cached then w.markers[k := v] else w.markers), Success(v))
  {
  }

  /** A repeat answers with what is stored, whether its marker is there, has expired, or expires meanwhile. */
  lemma RepeatAnswers(w: World, k: Key, e: Env)
    requires NoFault(e) && k in w.rows && MarkerTrue(w, k)
    ensures SendOnce(w, k, e).1 == Success(w.rows[k]) && SendOnce(w, k, e).0.rows == w.rows
  {
  }

  /** A marker that the Bloom filter and Redis lead to is the answer; no number is allocated and nothing written. */
  lemma MarkerAnswers(w: World, k: Key, e: Env)
    requires e.metaOk && e.member && e.cached && e.maybeSeen && e.getOk && k in w.markers
    ensures SendOnce(w, k, e) == (w, Success(w.markers[k]))
  {
  }

  /** A marker that SETNX finds and that is still there is the answer too. */
  lemma FoundMarkerAnswers(w: World, k: Key, e: Env)
    requires e.metaOk && e.member && e.cached && e.convSeq.Some? && e.msgId.Some? && k in w.markers
    requires e.put.Answers? && !e.expires && e.getAgainOk
    ensures SendOnce(w, k, e) == (w, Success(w.markers[k]))
  {
  }

  /** Who is refused, and that a refusal or a failure before the commit stores nothing. */
  lemma RefusedIff(w: World, k: Key, e: Env)
    ensures SendOnce(w, k, e).1 == NotMember <==> e.metaOk && !e.member
    ensures !e.metaOk || !e.member ==> SendOnce(w, k, e).0 == w
    ensures !SendOnce(w, k, e).1.Success? && !e.commit.CommitsButFails? ==> SendOnce(w, k, e).0.rows == w.rows
    ensures SendOnce(w, k, e).1.Success? ==> e.metaOk && e.member
  {
  }

  datatype Op = SendOp(k: Key, e: Env) | Expire(k: Key)

  function Step(w: World, op: Op): (World, Result) {
    match op
    case SendOp(k, e) => SendOnce(w, k, e)
    case Expire(k) => (w.(markers := w.markers - {k}), Failed)
  }

  function After(w: World, ops: seq<Op>): World
    decreases |ops|
  {
    if ops == [] then w else After(Step(w, ops[0]).0, ops[1..])
  }

  function Results(w: World, ops: seq<Op>): seq<Result>
    decreases |ops|
  {
    if ops == [] then [] else [Step(w, ops[0]).1] + Results(Step(w, ops[0]).0, ops[1..])
  }

  lemma {:induction false} ResultsLength(w: World, ops: seq<Op>)
    ensures |Results(w, ops)| == |ops|
    decreases |ops|
  {
    if ops == [] {
    } else {
      ResultsLength(Step(w, ops[0]).0, ops[1..]);
    }
  }

  ghost predicate NoOrphans(w: World, ops: seq<Op>)
    decreases |ops|
  {
    ops == [] ||
    ((ops[0].SendOp? ==> !LeavesOrphan(w, ops[0].k, ops[0].e)) && NoOrphans(Step(w, ops[0]).0, ops[1..]))
  }

  ghost predicate Extends(a: map<Key, Val>, b: map<Key, Val>) {
    forall k :: k in a ==> k in b && a[k] == b[k]
  }

  /** Over any run, rows are never changed or removed, and every success returned the row its key has at the end. */
  lemma {:induction false} RunRefines(w: World, ops: seq<Op>, i: nat)
    requires MarkersTrue(w) && NoOrphans(w, ops)
    ensures MarkersTrue(After(w, ops)) && Extends(w.rows, After(w, ops).rows) && |Results(w, ops)| == |ops|
    ensures i < |ops| && ops[i].SendOp? && Results(w, ops)[i].Success? ==>
              ops[i].k in After(w, ops).rows && Results(w, ops)[i].v == After(w, ops).rows[ops[i].k]
    decreases |ops|
  {
    ResultsLength(w, ops);
    if ops == [] {
    } else {
      var t := Step(w, ops[0]).0;
      if ops[0].SendOp? {
        SendRefines(w, ops[0].k, ops[0].e);
        MarkersTrueIff(w, ops[0].k, ops[0].e);
      }
      assert MarkersTrue(t) && Extends(w.rows, t.rows);
      RunRefines(t, ops[1..], if i > 0 then i - 1 else 0);
    }
  }

  /** Two successes for one key agree, whatever happened in between. */
  lemma SuccessesAgree(w: World, ops: seq<Op>, i: nat, j: nat)
    requires MarkersTrue(w) && NoOrphans(w, ops) && i < |ops| && j < |ops|
    requires ops[i].SendOp? && ops[j].SendOp? && ops[i].k == ops[j].k
    ensures |Results(w, ops)| == |ops|
    ensures Results(w, ops)[i].Success? && Results(w, ops)[j].Success? ==> Results(w, ops)[i].v == Results(w, ops)[j].v
  {
    RunRefines(w, ops, i);
    RunRefines(w, ops, j);
  }

  /**
   * When a transaction cannot begin, the marker stays, and a repeat of the send that asks Redis is told that a
   * message was stored which was not.
   */
  lemma OrphanMisleads(k: Key, bad: Env, again: Env)
    requires LeavesOrphan(World(map[], map[]), k, bad) && !bad.beginOk && bad.marshalOk
    requires again.metaOk && again.member && again.cached && again.maybeSeen && again.getOk
    ensures var w1 := SendOnce(World(map[], map[]), k, bad).0;
            var (w2, r) := SendOnce(w1, k, again);
            SendOnce(World(map[], map[]), k, bad).1 == Failed && r.Success? && k !in w2.rows
  {
  }

  // ---- The method ----

  class Service {
    var rows: map<Key, Val>
    var markers: map<Key, Val>

    ghost function View(): World
      reads this
    {
      World(rows, markers)
    }

    method IdemDel(k: Key, e: Env)
      modifies this`markers
      ensures View() == Del(old(View()), k, e)
    {
      if e.cached && e.delOk { markers := markers - {k}; }
    }

    method IdemPut(k: Key, v: Val, e: Env) returns (ok: bool, failed: bool)
      modifies this`markers
      ensures (View(), !failed && !ok) == PutMarker(old(View()), k, v, e)
    {
      if e.put.PutLost? { return true, true; }
      var isNew := k !in markers;
      if isNew { markers := markers[k := v]; }
      if e.put.PutDoneButFailed? { return true, true; }
      return isNew, false;
    }

    method SendMessage(k: Key, e: Env) returns (r: Result)
      modifies this
      ensures (View(), r) == SendOnce(old(View()), k, e)
    {
      if !e.metaOk { return Failed; }
      if !e.member { return NotMember; }
      if e.cached && e.maybeSeen {
        if e.getOk && k in markers { return Success(markers[k]); }
      }
      if e.convSeq.None? { return Failed; }
      if e.msgId.None? { return Failed; }
      var v := Val(e.msgId.value, e.convSeq.value);
      if e.cached {
        var ok, failed := IdemPut(k, v, e);
        if !failed && !ok {
          if e.expires { markers := markers - {k}; }
          if e.getAgainOk && k in markers { return Success(markers[k]); }
          if e.queryOk && k in rows { return Success(rows[k]); }
        }
      }
      r := Persist(k, v, e);
    }

    /** The local transaction. */
    method Persist(k: Key, v: Val, e: Env) returns (r: Result)
      modifies this
      ensures (View(), r) == Insert(old(View()), k, v, e)
    {
      if !e.marshalOk {
        IdemDel(k, e);
        return Failed;
      }
      if !e.beginOk { return Failed; }
      if k in rows {
        IdemDel(k, e);
        return if e.queryAgainOk then Success(rows[k]) else Failed;
      }
      if !e.insertOk {
        IdemDel(k, e);
        return Failed;
      }
      if !e.localOk {
        IdemDel(k, e);
        return Failed;
      }
      if !e.commit.Aborts? { rows := rows[k := v]; }
      if !e.commit.Commits? {
        IdemDel(k, e);
        return Failed;
      }
      return Success(v);
    }
  }
}
