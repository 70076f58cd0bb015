/**
 * Reliable delivery: the fan-out, the pending-ACK registry, the three retry levels, the offline box, the
 * batched status=1 marks, the scan compensation and the cleanup, as one transition system
 * (internal/message/delivery.go, internal/message/compensation.go, the commit in internal/message/service.go).
 */
module Delivery {
  import opened Common

  /** One recipient of one message, the key of the pending registry and of the offline box. */
  datatype Key = Key(uid: int, conv: int, seqNo: int)

  datatype PushEvent = PushEvent(conv: int, maxSeq: int, fromUid: int, msgId: int)

  const RETRY_LEVELS := 3

  // ---- What the fan-out, the timers and the acks change ----

  /**
   * A retry chain waits for its timer, has found its key waiting and is about to push again, has pushed, is
   * about to write the offline box, or has ended.
   */
  datatype Phase = Asleep | Checked | Pushed | Boxing | Over

  datatype Chain = Chain(key: Key, level: int, phase: Phase)

  /**
   * `acks`: every cumulative acknowledgement (uid, conv, ackSeq). `lost`: keys whose offline-box write failed,
   * or that only a crashed process knew. `registered` and `repushed` count registrations and retry pushes.
   */
  datatype Books = Books(
    pending: set<Key>, chains: seq<Chain>, box: set<Key>, acks: set<(int, int, int)>, lost: set<Key>,
    registered: multiset<Key>, repushed: multiset<Key>)

  const NO_BOOKS := Books({}, [], {}, {}, {}, multiset{}, multiset{})

  function KeyOf(e: PushEvent, uid: int): Key {
    Key(uid, e.conv, e.maxSeq)
  }

  function Register(b: Books, k: Key): Books {
    if k in b.pending then b
    else b.(pending := b.pending + {k}, chains := b.chains + [Chain(k, 1, Asleep)],
            registered := b.registered + multiset{k})
  }

  function WriteBox(b: Books, k: Key, stored: bool): Books {
    if stored then b.(box := b.box + {k}) else b.(lost := b.lost + {k})
  }

  /** One turn of the loop over the members. */
  function Handle(b: Books, e: PushEvent, uid: int, delivered: bool, stored: bool): Books {
    if uid == e.fromUid then b
    else if delivered then Register(b, KeyOf(e, uid))
    else WriteBox(b, KeyOf(e, uid), stored)
  }

  /** The timer fires: an acknowledged key ends the chain, a waiting one is to be pushed again. */
  function Fire(b: Books, i: nat): Books {
    if i >= |b.chains| || b.chains[i].phase != Asleep then b
    else b.(chains := b.chains[i := b.chains[i].(phase := if b.chains[i].key in b.pending then Checked else Over)])
  }

  /** The push itself, with no lock held: an ack may have come in since the check. */
  function Repush(b: Books, i: nat): Books {
    if i >= |b.chains| || b.chains[i].phase != Checked then b
    else
      b.(chains := b.chains[i := b.chains[i].(phase := Pushed)], repushed := b.repushed + multiset{b.chains[i].key})
  }

  /** After the push: the next level is scheduled if the key still waits; the last level gives the key up. */
  function AfterPush(b: Books, i: nat): Books {
    if i >= |b.chains| || b.chains[i].phase != Pushed then b
    else if b.chains[i].level >= RETRY_LEVELS then
      b.(pending := b.pending - {b.chains[i].key}, chains := b.chains[i := b.chains[i].(phase := Boxing)])
    else if b.chains[i].key in b.pending then
      b.(chains := b.chains[i := Chain(b.chains[i].key, b.chains[i].level + 1, Asleep)])
    else b.(chains := b.chains[i := b.chains[i].(phase := Over)])
  }

  function BoxTimeout(b: Books, i: nat, stored: bool): Books {
    if i >= |b.chains| || b.chains[i].phase != Boxing then b
    else WriteBox(b.(chains := b.chains[i := b.chains[i].(phase := Over)]), b.chains[i].key, stored)
  }

  predicate Covers(ack: (int, int, int), k: Key) {
    ack.0 == k.uid && ack.1 == k.conv && k.seqNo <= ack.2
  }

  function Ack(b: Books, ack: (int, int, int)): Books {
    b.(pending := (set k | k in b.pending && !Covers(ack, k)), acks := b.acks + {ack})
  }

  /** The delivering process dies: its registry, timers and half-written boxes are gone. */
  function Forget(b: Books): Books {
    b.(pending := {}, lost := b.lost + b.pending + (set c | c in b.chains && c.phase == Boxing :: c.key),
       chains := seq(|b.chains|, i requires 0 <= i < |b.chains| => b.chains[i].(phase := Over)))
  }

  // ---- Nobody in the books is forgotten ----

  ghost predicate Live(b: Books, i: nat, k: Key) {
    i < |b.chains| && b.chains[i].key == k && b.chains[i].phase in {Asleep, Checked, Pushed} &&
    1 <= b.chains[i].level <= RETRY_LEVELS
  }

  ghost predicate HasLiveChain(b: Books, k: Key) {
    exists i: nat :: Live(b, i, k)
  }

  ghost predicate BeingBoxed(b: Books, k: Key) {
    exists i: nat :: i < |b.chains| && b.chains[i] == Chain(k, RETRY_LEVELS, Boxing)
  }

  ghost predicate Acked(b: Books, k: Key) {
    exists ack :: ack in b.acks && Covers(ack, k)
  }

  /** The recipient still waits with a live retry chain, has acknowledged, or is in the offline box or about to be. */
  ghost predicate Covered(b: Books, k: Key) {
    (k in b.pending && HasLiveChain(b, k)) || Acked(b, k) || k in b.box || BeingBoxed(b, k)
  }

  /** Covered, or on record as lost. */
  ghost predicate Safe(b: Books, k: Key) {
    Covered(b, k) || k in b.lost
  }

  ghost predicate Levels(b: Books) {
    forall i | 0 <= i < |b.chains| ::
      1 <= b.chains[i].level <= RETRY_LEVELS && (b.chains[i].phase == Boxing ==> b.chains[i].level == RETRY_LEVELS)
  }

  ghost predicate Chained(b: Books) {
    Levels(b) && forall k | k in b.pending :: HasLiveChain(b, k)
  }

  ghost predicate Follows(b: Books, c: Books) {
    Chained(c) && forall k | Safe(b, k) :: Safe(c, k)
  }

  lemma RegisterFollows(b: Books, k: Key)
    requires Chained(b)
    ensures Follows(b, Register(b, k)) && Safe(Register(b, k), k)
  {
    var c := Register(b, k);
    if k !in b.pending {
      assert Live(c, |b.chains|, k);
      forall j | HasLiveChain(b, j) ensures HasLiveChain(c, j) {
        var i: nat :| Live(b, i, j);
        assert Live(c, i, j);
      }
      forall j | BeingBoxed(b, j) ensures BeingBoxed(c, j) {
        var i: nat :| i < |b.chains| && b.chains[i] == Chain(j, RETRY_LEVELS, Boxing);
        assert c.chains[i] == b.chains[i];
      }
    }
  }

  lemma WriteBoxFollows(b: Books, k: Key, stored: bool)
    requires Chained(b)
    ensures Follows(b, WriteBox(b, k, stored)) && Safe(WriteBox(b, k, stored), k)
  {
    SameChains(b, WriteBox(b, k, stored));
  }

  lemma SameChains(b: Books, c: Books)
    requires b.chains == c.chains
    ensures forall k :: HasLiveChain(b, k) == HasLiveChain(c, k) && BeingBoxed(b, k) == BeingBoxed(c, k)
  {
    forall k ensures HasLiveChain(b, k) == HasLiveChain(c, k) {
      assert forall i: nat :: Live(b, i, k) == Live(c, i, k);
    }
  }

  /** Changing chain `i` leaves the other keys' chains alone. */
  lemma OtherKeys(b: Books, c: Books, i: nat, k: Key)
    requires i < |b.chains| && |c.chains| == |b.chains| && k != b.chains[i].key && c.chains[i].key == b.chains[i].key
    requires forall j | 0 <= j < |b.chains| && j != i :: c.chains[j] == b.chains[j]
    ensures HasLiveChain(b, k) ==> HasLiveChain(c, k)
    ensures BeingBoxed(b, k) ==> BeingBoxed(c, k)
  {
    if HasLiveChain(b, k) {
      var j: nat :| Live(b, j, k);
      assert Live(c, j, k);
    }
    if BeingBoxed(b, k) {
      var j: nat :| j < |b.chains| && b.chains[j] == Chain(k, RETRY_LEVELS, Boxing);
      assert c.chains[j] == b.chains[j];
    }
  }

  /** Only a chain that is not boxing changes, so a key being boxed stays so. */
  lemma StillBoxed(b: Books, c: Books, i: nat, k: Key)
    requires i < |b.chains| && |c.chains| == |b.chains| && b.chains[i].phase != Boxing
    requires forall j | 0 <= j < |b.chains| && j != i :: c.chains[j] == b.chains[j]
    ensures BeingBoxed(b, k) ==> BeingBoxed(c, k)
  {
    if BeingBoxed(b, k) {
      var j: nat :| j < |b.chains| && b.chains[j] == Chain(k, RETRY_LEVELS, Boxing);
      assert c.chains[j] == b.chains[j];
    }
  }

  lemma FireFollows(b: Books, i: nat)
    requires Chained(b)
    ensures Follows(b, Fire(b, i))
  {
    var c := Fire(b, i);
    if i < |b.chains| && b.chains[i].phase == Asleep {
      var key := b.chains[i].key;
      assert key in b.pending ==> Live(c, i, key);
      forall k ensures (k in b.pending ==> HasLiveChain(c, k)) && (Safe(b, k) ==> Safe(c, k)) {
        if k != key { OtherKeys(b, c, i, k); }
        StillBoxed(b, c, i, k);
      }
    }
  }

  lemma RepushFollows(b: Books, i: nat)
    requires Chained(b)
    ensures Follows(b, Repush(b, i))
  {
    var c := Repush(b, i);
    if i < |b.chains| && b.chains[i].phase == Checked {
      assert Live(c, i, b.chains[i].key);
      forall k ensures (k in b.pending ==> HasLiveChain(c, k)) && (Safe(b, k) ==> Safe(c, k)) {
        if k != b.chains[i].key { OtherKeys(b, c, i, k); }
        StillBoxed(b, c, i, k);
      }
    }
  }

  lemma AfterPushFollows(b: Books, i: nat)
    requires Chained(b)
    ensures Follows(b, AfterPush(b, i))
  {
    var c := AfterPush(b, i);
    if i < |b.chains| && b.chains[i].phase == Pushed {
      var key := b.chains[i].key;
      assert b.chains[i].level < RETRY_LEVELS && key in b.pending ==> Live(c, i, key);
      assert b.chains[i].level == RETRY_LEVELS ==> c.chains[i] == Chain(key, RETRY_LEVELS, Boxing);
      forall k ensures (k in c.pending ==> HasLiveChain(c, k)) && (Safe(b, k) ==> Safe(c, k)) {
        if k != key { OtherKeys(b, c, i, k); }
        StillBoxed(b, c, i, k);
      }
    }
  }

  lemma BoxTimeoutFollows(b: Books, i: nat, stored: bool)
    requires Chained(b)
    ensures Follows(b, BoxTimeout(b, i, stored))
  {
    var c := BoxTimeout(b, i, stored);
    if i < |b.chains| && b.chains[i].phase == Boxing {
      forall k ensures (k in b.pending ==> HasLiveChain(c, k)) && (Safe(b, k) ==> Safe(c, k)) {
        if k != b.chains[i].key { OtherKeys(b, c, i, k); }
        if HasLiveChain(b, k) {
          var j: nat :| Live(b, j, k);
          assert Live(c, j, k);
        }
      }
    }
  }

  lemma AckFollows(b: Books, ack: (int, int, int))
    requires Chained(b)
    ensures Follows(b, Ack(b, ack))
  {
    SameChains(b, Ack(b, ack));
  }

  lemma ForgetFollows(b: Books)
    requires Chained(b)
    ensures Follows(b, Forget(b))
    ensures forall k :: k in Forget(b).lost <==> k in b.lost || k in b.pending || BeingBoxed(b, k)
  {
    var c := Forget(b);
    forall k | k in c.lost && k !in b.lost && k !in b.pending ensures BeingBoxed(b, k) {
      var x :| x in b.chains && x.phase == Boxing && x.key == k;
      var i :| 0 <= i < |b.chains| && b.chains[i] == x;
      assert b.chains[i] == Chain(k, RETRY_LEVELS, Boxing);
    }
    forall k | BeingBoxed(b, k) ensures k in c.lost {
      var i: nat :| i < |b.chains| && b.chains[i] == Chain(k, RETRY_LEVELS, Boxing);
      assert b.chains[i] in b.chains;
    }
  }

  lemma HandleFollows(b: Books, e: PushEvent, uid: int, delivered: bool, stored: bool)
    requires Chained(b)
    ensures Follows(b, Handle(b, e, uid, delivered, stored))
    ensures uid != e.fromUid ==> Safe(Handle(b, e, uid, delivered, stored), KeyOf(e, uid))
  {
    RegisterFollows(b, KeyOf(e, uid));
    WriteBoxFollows(b, KeyOf(e, uid), stored);
  }

  /** Where one member ends up: registered if the push got through, else boxed or lost, and nowhere else. */
  lemma HandledKey(b: Books, e: PushEvent, uid: int, delivered: bool, stored: bool)
    ensures var c, k := Handle(b, e, uid, delivered, stored), Key(uid, e.conv, e.maxSeq);
      && c.pending == (if uid != e.fromUid && delivered then b.pending + {k} else b.pending)
      && c.box == (if uid != e.fromUid && !delivered && stored then b.box + {k} else b.box)
      && c.lost == (if uid != e.fromUid && !delivered && !stored then b.lost + {k} else b.lost)
      && c.acks == b.acks && c.repushed == b.repushed
      && if uid != e.fromUid && delivered && k !in b.pending
         then c.chains == b.chains + [Chain(k, 1, Asleep)] && c.registered == b.registered + multiset{k}
         else c.chains == b.chains && c.registered == b.registered
  {
  }

  // ---- The tables, the queue and the marks ----

  /** Primary key of local_message and of the message row: (conv_id, msg_id). */
  type RowKey = (int, int)

  datatype Row = Row(seqNo: int, fromUid: int)

  datatype FanPhase = Running | Aborted | Finished

  /** One call of `deliver` that got the member list; `next` members have been handled. */
  datatype Fan = Fan(event: PushEvent, members: seq<int>, next: nat, phase: FanPhase)

  /** `status` is local_message; `marks` the mark batcher's buffer and `flights` its UPDATEs under way. */
  datatype State = State(
    books: Books, rows: map<RowKey, Row>, status: map<RowKey, int>, queue: seq<PushEvent>, fans: seq<Fan>,
    marks: set<RowKey>, flights: seq<set<RowKey>>)

  datatype Action =
    | Commit(e: PushEvent, queued: bool)
    | Consume(at: nat, members: Option<seq<int>>, again: bool)
    | Scan(row: RowKey, members: Option<seq<int>>)
    | Member(fan: nat, delivered: bool, stored: bool)
    | Finish(fan: nat)
    | Panic(fan: nat)
    | TimerFires(chain: nat)
    | PushStarts(chain: nat)
    | PushReturns(chain: nat)
    | BoxReturns(chain: nat, stored: bool)
    | Acknowledge(ack: (int, int, int))
    | TakeMarks
    | MarksReturn(flight: nat, ok: bool)
    | Cleanup(row: RowKey)
    | Crash(queueLost: bool)

  function RowOf(e: PushEvent): RowKey {
    (e.conv, e.msgId)
  }

  /** The member lookup starts a fan-out or fails; a failed one leaves everything to the scan. */
  function Begin(s: State, e: PushEvent, members: Option<seq<int>>): State {
    if members.None? then s else s.(fans := s.fans + [Fan(e, members.value, 0, Running)])
  }

  function SetFan(s: State, f: nat, fan: Fan): State
    requires f < |s.fans|
  {
    s.(fans := s.fans[f := fan])
  }

  /** UPDATE local_message SET status = 1 WHERE status = 0 AND (conv_id, msg_id) IN (rows). */
  function Marked(status: map<RowKey, int>, rows: set<RowKey>): map<RowKey, int> {
    map r | r in status :: if r in rows && status[r] == 0 then 1 else status[r]
  }

  function Step(s: State, a: Action): State {
    match a
    case Commit(e, queued) =>
      if RowOf(e) in s.rows then s
      else s.(rows := s.rows[RowOf(e) := Row(e.maxSeq, e.fromUid)], status := s.status[RowOf(e) := 0],
              queue := if queued then s.queue + [e] else s.queue)
    case Consume(at, members, again) =>
      if at >= |s.queue| then s
      else Begin(s.(queue := if again then s.queue else s.queue[..at] + s.queue[at + 1..]), s.queue[at], members)
    case Scan(row, members) =>
      if row !in s.status || s.status[row] != 0 then s
      else if row in s.rows then
        Begin(s, PushEvent(row.0, s.rows[row].seqNo, s.rows[row].fromUid, row.1), members)
      else s.(status := Marked(s.status, {row}))
    case Member(fan, delivered, stored) =>
      if fan >= |s.fans| || s.fans[fan].phase != Running || s.fans[fan].next >= |s.fans[fan].members| then s
      else
        var f := s.fans[fan];
        SetFan(s, fan, f.(next := f.next + 1))
          .(books := Handle(s.books, f.event, f.members[f.next], delivered, stored))
    case Finish(fan) =>
      if fan >= |s.fans| || s.fans[fan].phase != Running || s.fans[fan].next < |s.fans[fan].members| then s
      else
        var f := s.fans[fan];
        SetFan(s, fan, f.(phase := Finished))
          .(marks := if f.event.msgId != 0 then s.marks + {RowOf(f.event)} else s.marks)
    case Panic(fan) =>
      if fan >= |s.fans| || s.fans[fan].phase != Running then s
      else SetFan(s, fan, s.fans[fan].(phase := Aborted))
    case TimerFires(chain) => s.(books := Fire(s.books, chain))
    case PushStarts(chain) => s.(books := Repush(s.books, chain))
    case PushReturns(chain) => s.(books := AfterPush(s.books, chain))
    case BoxReturns(chain, stored) => s.(books := BoxTimeout(s.books, chain, stored))
    case Acknowledge(ack) => s.(books := Ack(s.books, ack))
    case TakeMarks => s.(marks := {}, flights := s.flights + [s.marks])
    case MarksReturn(flight, ok) =>
      if flight >= |s.flights| then s
      else s.(status := if ok then Marked(s.status, s.flights[flight]) else s.status,
              flights := s.flights[flight := {}])
    case Cleanup(row) =>
      if row in s.status && s.status[row] == 1 then s.(status := s.status - {row}) else s
    case Crash(queueLost) =>
      s.(books := Forget(s.books), queue := if queueLost then [] else s.queue, marks := {}, flights := [],
         fans := seq(|s.fans|, i requires 0 <= i < |s.fans| =>
                   if s.fans[i].phase == Running then s.fans[i].(phase := Aborted) else s.fans[i]))
  }

  function Run(s: State, acts: seq<Action>): State
    decreases |acts|
  {
    if acts == [] then s else Run(Step(s, acts[0]), acts[1..])
  }

  const START := State(NO_BOOKS, map[], map[], [], [], {}, [])

  // ---- The invariant ----

  predicate Genuine(s: State, e: PushEvent) {
    RowOf(e) in s.rows && s.rows[RowOf(e)] == Row(e.maxSeq, e.fromUid)
  }

  ghost predicate Events(s: State) {
    && (forall i | 0 <= i < |s.queue| :: Genuine(s, s.queue[i]))
    && (forall f | 0 <= f < |s.fans| :: Genuine(s, s.fans[f].event))
  }

  ghost predicate Fans(s: State) {
    forall f | 0 <= f < |s.fans| ::
      s.fans[f].next <= |s.fans[f].members| && (s.fans[f].phase == Finished ==> s.fans[f].next == |s.fans[f].members|)
  }

  ghost predicate Handled(s: State) {
    forall f, j | 0 <= f < |s.fans| && 0 <= j < s.fans[f].next <= |s.fans[f].members| ::
      s.fans[f].members[j] != s.fans[f].event.fromUid ==> Safe(s.books, KeyOf(s.fans[f].event, s.fans[f].members[j]))
  }

  ghost predicate Served(s: State, r: RowKey, f: nat) {
    f < |s.fans| && s.fans[f].phase == Finished && RowOf(s.fans[f].event) == r
  }

  /** Some fan-out of the message went through all its members. */
  ghost predicate Closed(s: State, r: RowKey) {
    exists f: nat :: Served(s, r, f)
  }

  ghost predicate Marks(s: State) {
    && (forall r | r in s.marks :: Closed(s, r))
    && (forall i, r | 0 <= i < |s.flights| && r in s.flights[i] :: Closed(s, r))
  }

  ghost predicate Statuses(s: State) {
    && s.status.Keys <= s.rows.Keys
    && (forall r | r in s.rows :: (r in s.status && s.status[r] == 0) || Closed(s, r))
  }

  ghost predicate Inv(s: State) {
    Chained(s.books) && Events(s) && Fans(s) && Handled(s) && Marks(s) && Statuses(s)
  }
}
