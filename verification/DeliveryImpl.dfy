/**
 * The delivery layer as the objects of the source: the pending registry, the deliverer, and the two tasks on
 * local_message. Each method is proved equal to the functions of Delivery that the protocol steps with.
 */
module DeliveryImpl {
  import opened Common
  import opened Delivery
  import DeliverySafety

  class PendingAcks {
    var m: map<(int, int), map<int, PushEvent>>   // (uid, conv) -> seq -> the event its retry closure holds

    /** No empty bucket is kept. */
    ghost predicate Valid()
      reads this
    {
      forall ck | ck in m :: m[ck] != map[]
    }

    ghost function Waiting(): (r: set<Key>)
      reads this
      ensures forall k :: k in r <==> Has(m, k)
    {
      set ck, seqNo | ck in m && seqNo in m[ck] :: Key(ck.0, ck.1, seqNo)
    }

    ghost function Fires(): map<Key, PushEvent>
      reads this
    {
      map k | k in Waiting() :: Held(m, k)
    }

    constructor ()
      ensures Valid() && Fires() == map[]
    {
      m := map[];
    }

    /** `start` says that the first-level timer is started: not for a key that already waits. */
    method Register(uid: int, conv: int, seqNo: int, fire: PushEvent) returns (start: bool)
      requires Valid()
      modifies this
      ensures Valid() && start == (Key(uid, conv, seqNo) !in old(Waiting()))
      ensures Waiting() == old(Waiting()) + {Key(uid, conv, seqNo)}
      ensures Fires() == if start then old(Fires())[Key(uid, conv, seqNo) := fire] else old(Fires())
    {
      var b := if (uid, conv) in m then m[(uid, conv)] else map[];
      if seqNo in b { return false; }
      m := m[(uid, conv) := b[seqNo := fire]];
      return true;
    }

    method Schedule(uid: int, conv: int, seqNo: int) returns (fire: Option<PushEvent>)
      ensures fire == if Key(uid, conv, seqNo) in Fires() then Some(Fires()[Key(uid, conv, seqNo)]) else None
    {
      if (uid, conv) in m && seqNo in m[(uid, conv)] { return Some(m[(uid, conv)][seqNo]); }
      return None;
    }

    method Alive(uid: int, conv: int, seqNo: int) returns (ok: bool)
      ensures ok == (Key(uid, conv, seqNo) in Waiting())
    {
      return (uid, conv) in m && seqNo in m[(uid, conv)];
    }

    /** Cumulative: exactly the keys of this user and conversation with seq at most `ackSeq` stop waiting. */
    method Ack(uid: int, conv: int, ackSeq: int)
      requires Valid()
      modifies this
      ensures Valid()
      ensures forall k :: k in Waiting() <==> k in old(Waiting()) && !Covers((uid, conv, ackSeq), k)
      ensures forall k | k in Waiting() :: Fires()[k] == old(Fires())[k]
    {
      if (uid, conv) !in m { return; }
      var b := Prune(m[(uid, conv)], ackSeq);
      PutBack(m, (uid, conv), b);
      m := m[(uid, conv) := b];
      if |b| == 0 { m := m - {(uid, conv)}; }
    }

    method Remove(uid: int, conv: int, seqNo: int)
      requires Valid()
      modifies this
      ensures Valid() && Waiting() == old(Waiting()) - {Key(uid, conv, seqNo)}
      ensures forall k | k in Waiting() :: Fires()[k] == old(Fires())[k]
    {
      if (uid, conv) !in m { return; }
      var b := m[(uid, conv)] - {seqNo};
      PutBack(m, (uid, conv), b);
      m := m[(uid, conv) := b];
      if |b| == 0 { m := m - {(uid, conv)}; }
    }
  }

  predicate Has(m: map<(int, int), map<int, PushEvent>>, k: Key) {
    (k.uid, k.conv) in m && k.seqNo in m[(k.uid, k.conv)]
  }

  /** Deletions go through the bucket, and an empty bucket is dropped. */
  lemma PutBack(m: map<(int, int), map<int, PushEvent>>, ck: (int, int), b: map<int, PushEvent>)
    ensures |b| == 0 <==> b == map[]
    ensures var r := if |b| == 0 then m[ck := b] - {ck} else m[ck := b];
      forall k: Key ::
        if (k.uid, k.conv) == ck then Has(r, k) == (k.seqNo in b) && (Has(r, k) ==> Held(r, k) == b[k.seqNo])
        else Has(r, k) == Has(m, k) && (Has(r, k) ==> Held(r, k) == Held(m, k))
  {
  }

  function Held(m: map<(int, int), map<int, PushEvent>>, k: Key): PushEvent
    requires Has(m, k)
  {
    m[(k.uid, k.conv)][k.seqNo]
  }

  /** The delete loop of `ack`: exactly the seqs above `ackSeq` stay. */
  method Prune(bucket: map<int, PushEvent>, ackSeq: int) returns (b: map<int, PushEvent>)
    ensures forall q :: q in b <==> q in bucket && q > ackSeq
    ensures forall q | q in b :: b[q] == bucket[q]
  {
    b := bucket;
    var todo: set<int> := b.Keys;
    while todo != {}
      invariant todo <= b.Keys <= bucket.Keys
      invariant forall q :: q in b <==> q in bucket && (q in todo || q > ackSeq)
      invariant forall q | q in b :: b[q] == bucket[q]
      decreases |todo|
    {
      var q := Next(todo);
      if q <= ackSeq { b := b - {q}; }
      todo := todo - {q};
    }
  }

  // ---- The deliverer ----

  /** The whole fan-out loop over the first `n` members. */
  function FanOut(b: Books, e: PushEvent, members: seq<int>, delivered: seq<bool>, stored: seq<bool>, n: nat): Books
    requires n <= |members| && |delivered| == |stored| == |members|
  {
    if n == 0 then b
    else Handle(FanOut(b, e, members, delivered, stored, n - 1), e, members[n - 1], delivered[n - 1], stored[n - 1])
  }

  /** However the pushes and box writes turn out, every non-sender ends up safe. */
  lemma {:induction false} FanOutServes(b: Books, e: PushEvent, members: seq<int>, delivered: seq<bool>,
                                              stored: seq<bool>, n: nat)
    requires n <= |members| && |delivered| == |stored| == |members| && Chained(b)
    ensures var c := FanOut(b, e, members, delivered, stored, n);
      Follows(b, c) && forall j | 0 <= j < n :: members[j] != e.fromUid ==> Safe(c, KeyOf(e, members[j]))
  {
    if n == 0 {
    } else {
      FanOutServes(b, e, members, delivered, stored, n - 1);
      var c := FanOut(b, e, members, delivered, stored, n - 1);
      HandleFollows(c, e, members[n - 1], delivered[n - 1], stored[n - 1]);
    }
  }

  /** Key k is member j's, who is not the sender; `delivered` says whether the push got through, else `stored`. */
  predicate IsKey(e: PushEvent, members: seq<int>, j: nat, k: Key) {
    j < |members| && members[j] != e.fromUid && k == Key(members[j], e.conv, e.maxSeq)
  }

  /** Exactly which keys a fan-out registers, boxes and loses. */
  ghost predicate FannedOut(b: Books, c: Books, e: PushEvent, members: seq<int>, delivered: seq<bool>,
                            stored: seq<bool>, n: nat)
    requires n <= |members| && |delivered| == |stored| == |members|
  {
    && (forall k :: k in c.pending <==>
          k in b.pending || exists j: nat :: j < n && IsKey(e, members, j, k) && delivered[j])
    && (forall k :: k in c.box <==>
          k in b.box || exists j: nat :: j < n && IsKey(e, members, j, k) && !delivered[j] && stored[j])
    && (forall k :: k in c.lost <==>
          k in b.lost || exists j: nat :: j < n && IsKey(e, members, j, k) && !delivered[j] && !stored[j])
  }

  lemma {:induction false} FanOutKeys(b: Books, e: PushEvent, members: seq<int>, delivered: seq<bool>,
                                            stored: seq<bool>, n: nat)
    requires n <= |members| && |delivered| == |stored| == |members|
    ensures FannedOut(b, FanOut(b, e, members, delivered, stored, n), e, members, delivered, stored, n)
  {
    if n == 0 {
    } else {
      FanOutKeys(b, e, members, delivered, stored, n - 1);
      var c := FanOut(b, e, members, delivered, stored, n - 1);
      HandledKey(c, e, members[n - 1], delivered[n - 1], stored[n - 1]);
      OneMoreKey(b, c, e, members, delivered, stored, n);
    }
  }

  lemma OneMoreKey(b: Books, c: Books, e: PushEvent, members: seq<int>, delivered: seq<bool>, stored: seq<bool>,
                   n: nat)
    requires 0 < n <= |members| && |delivered| == |stored| == |members|
    requires FannedOut(b, c, e, members, delivered, stored, n - 1)
    ensures var d := Handle(c, e, members[n - 1], delivered[n - 1], stored[n - 1]);
      FannedOut(b, d, e, members, delivered, stored, n)
  {
    HandledKey(c, e, members[n - 1], delivered[n - 1], stored[n - 1]);
    var last := Key(members[n - 1], e.conv, e.maxSeq);
    if members[n - 1] != e.fromUid { assert IsKey(e, members, n - 1, last); }
  }

  /**
   * An acknowledged delivery: of the members whose push got through exactly those wait afterwards that an
   * acknowledgement up to `q` does not reach.
   */
  lemma DeliveredThenAcked(b: Books, e: PushEvent, members: seq<int>, delivered: seq<bool>, stored: seq<bool>,
                           j: nat, q: int)
    requires |delivered| == |stored| == |members| && j < |members| && members[j] != e.fromUid && delivered[j]
    ensures var c := Ack(FanOut(b, e, members, delivered, stored, |members|), (members[j], e.conv, q));
      Key(members[j], e.conv, e.maxSeq) in c.pending <==> q < e.maxSeq
  {
    FanOutKeys(b, e, members, delivered, stored, |members|);
    assert IsKey(e, members, j, Key(members[j], e.conv, e.maxSeq));
  }

  function MemberSteps(fan: nat, delivered: seq<bool>, stored: seq<bool>, n: nat): seq<Action>
    requires n <= |delivered| && n <= |stored|
  {
    if n == 0 then [] else MemberSteps(fan, delivered, stored, n - 1) + [Member(fan, delivered[n - 1], stored[n - 1])]
  }

  /** The state of the fan-out after its first `n` members. */
  function Reached(s: State, fan: nat, delivered: seq<bool>, stored: seq<bool>, n: nat): State
    requires fan < |s.fans| && n <= |s.fans[fan].members| == |delivered| == |stored|
  {
    SetFan(s, fan, s.fans[fan].(next := n))
      .(books := FanOut(s.books, s.fans[fan].event, s.fans[fan].members, delivered, stored, n))
  }

  lemma NextMember(s: State, fan: nat, delivered: seq<bool>, stored: seq<bool>, n: nat)
    requires fan < |s.fans| && s.fans[fan].phase == Running
    requires 0 < n <= |s.fans[fan].members| == |delivered| == |stored|
    ensures Step(Reached(s, fan, delivered, stored, n - 1), Member(fan, delivered[n - 1], stored[n - 1])) ==
      Reached(s, fan, delivered, stored, n)
  {
    var f := s.fans[fan];
    assert s.fans[fan := f.(next := n - 1)][fan := f.(next := n)] == s.fans[fan := f.(next := n)];
  }

  lemma NoMembers(s: State, fan: nat, delivered: seq<bool>, stored: seq<bool>)
    requires fan < |s.fans| && s.fans[fan].next == 0 && |s.fans[fan].members| == |delivered| == |stored|
    ensures Run(s, MemberSteps(fan, delivered, stored, 0)) == Reached(s, fan, delivered, stored, 0)
  {
    assert s.fans[fan := s.fans[fan].(next := 0)] == s.fans;
  }

  lemma OneMoreMember(s: State, fan: nat, delivered: seq<bool>, stored: seq<bool>, n: nat)
    requires fan < |s.fans| && s.fans[fan].phase == Running
    requires 0 < n <= |s.fans[fan].members| == |delivered| == |stored|
    requires Run(s, MemberSteps(fan, delivered, stored, n - 1)) == Reached(s, fan, delivered, stored, n - 1)
    ensures Run(s, MemberSteps(fan, delivered, stored, n)) == Reached(s, fan, delivered, stored, n)
  {
    NextMember(s, fan, delivered, stored, n);
    DeliverySafety.RunThen(s, MemberSteps(fan, delivered, stored, n - 1), Member(fan, delivered[n - 1], stored[n - 1]));
  }

  /** The loop is a run of the protocol: its `Member` steps, one after the other. */
  lemma {:induction false} FanOutIsRun(s: State, fan: nat, delivered: seq<bool>, stored: seq<bool>, n: nat)
    requires fan < |s.fans| && s.fans[fan].phase == Running && s.fans[fan].next == 0
    requires n <= |s.fans[fan].members| == |delivered| == |stored|
    ensures Run(s, MemberSteps(fan, delivered, stored, n)) == Reached(s, fan, delivered, stored, n)
  {
    if n == 0 {
      NoMembers(s, fan, delivered, stored);
    } else {
      FanOutIsRun(s, fan, delivered, stored, n - 1);
      OneMoreMember(s, fan, delivered, stored, n);
    }
  }

  /** The timer callback of chain `i`, run without interruption. */
  function OnTimerOf(b: Books, i: nat, stored: bool): (r: Books)
    ensures |r.chains| == |b.chains|
  {
    BoxTimeout(AfterPush(Repush(Fire(b, i), i), i), i, stored)
  }

  /** What one uninterrupted callback amounts to. */
  lemma Callback(b: Books, i: nat, stored: bool)
    requires i < |b.chains| && b.chains[i].phase == Asleep
    ensures var c := b.chains[i]; var r := OnTimerOf(b, i, stored);
      if c.key !in b.pending then r == b.(chains := b.chains[i := c.(phase := Over)])
      else
        var p := b.(repushed := b.repushed + multiset{c.key});
        if c.level < RETRY_LEVELS then r == p.(chains := b.chains[i := Chain(c.key, c.level + 1, Asleep)])
        else
          r == WriteBox(p.(pending := b.pending - {c.key}, chains := b.chains[i := c.(phase := Over)]), c.key, stored)
  {
    var c := b.chains[i];
    var over, next := c.(phase := Over), Chain(c.key, c.level + 1, Asleep);
    var checked, pushed := b.chains[i := c.(phase := Checked)], b.chains[i := c.(phase := Pushed)];
    assert checked[i := c.(phase := Pushed)] == pushed;
    assert pushed[i := c.(phase := Boxing)][i := over] == b.chains[i := over];
    assert pushed[i := over] == b.chains[i := over] && pushed[i := next] == b.chains[i := next];
  }

  /** A key that is never acknowledged is pushed again exactly three times and then leaves the registry for the box. */
  lemma UnackedGoesToBox(b: Books, i: nat, k: Key)
    requires i < |b.chains| && b.chains[i] == Chain(k, 1, Asleep) && k in b.pending
    ensures var b2 := OnTimerOf(OnTimerOf(b, i, true), i, true); var b3 := OnTimerOf(b2, i, true);
      b2.box == b.box && k in b2.pending &&
      b3.repushed[k] == b.repushed[k] + 3 && b3.pending == b.pending - {k} &&
      b3.box == b.box + {k} && b3.chains[i].phase == Over
  {
    Callback(b, i, true);
    var b1 := OnTimerOf(b, i, true);
    Callback(b1, i, true);
    Callback(OnTimerOf(b1, i, true), i, true);
  }

  class Deliverer {
    const pend: PendingAcks
    var chains: seq<Chain>   // the retry closures handed to the timer
    var box: set<Key>        // offline_box
    var marks: set<RowKey>   // the mark batcher's buffer
    ghost var acks: set<(int, int, int)>
    ghost var lost: set<Key>
    ghost var registered: multiset<Key>
    ghost var repushed: multiset<Key>

    ghost function Ledger(): Books
      reads this, pend
    {
      Books(pend.Waiting(), chains, box, acks, lost, registered, repushed)
    }

    constructor ()
      ensures pend.Valid() && fresh(pend) && Ledger() == NO_BOOKS && marks == {}
    {
      pend := new PendingAcks();
      chains, box, marks := [], {}, {};
      acks, lost, registered, repushed := {}, {}, multiset{}, multiset{};
      new;
      assert pend.Waiting() == pend.Fires().Keys == {};
    }

    method WriteOfflineBox(uid: int, conv: int, seqNo: int, ok: bool)
      requires pend.Valid()
      modifies this
      ensures pend.Valid() && Ledger() == WriteBox(old(Ledger()), Key(uid, conv, seqNo), ok) && marks == old(marks)
    {
      if ok { box := box + {Key(uid, conv, seqNo)}; } else { lost := lost + {Key(uid, conv, seqNo)}; }
    }

    /** `delivered[i]` is what the push to member `i` reported, `stored[i]` whether its offline-box write worked. */
    method Deliver(e: PushEvent, lookup: Option<seq<int>>, delivered: seq<bool>, stored: seq<bool>)
      requires pend.Valid() && (lookup.Some? ==> |delivered| == |stored| == |lookup.value|)
      modifies this, pend
      ensures pend.Valid()
      ensures lookup.None? ==> Ledger() == old(Ledger()) && marks == old(marks)
      ensures lookup.Some? ==> Ledger() == FanOut(old(Ledger()), e, lookup.value, delivered, stored, |lookup.value|)
      ensures lookup.Some? ==> marks == if e.msgId != 0 then old(marks) + {(e.conv, e.msgId)} else old(marks)
      ensures lookup.Some? ==> forall j | 0 <= j < |lookup.value| && lookup.value[j] != e.fromUid ::
                var k := Key(lookup.value[j], e.conv, e.maxSeq);
                if delivered[j] then k in pend.Waiting() else if stored[j] then k in box else k in lost
    {
      if lookup.None? { return; }
      var members, n := lookup.value, 0;
      while n < |members|
        invariant n <= |members| && pend.Valid() && marks == old(marks)
        invariant Ledger() == FanOut(old(Ledger()), e, members, delivered, stored, n)
      {
        HandleMember(e, members[n], delivered[n], stored[n]);
        n := n + 1;
      }
      if e.msgId != 0 { marks := marks + {RowOf(e)}; }
      FanOutKeys(old(Ledger()), e, members, delivered, stored, |members|);
      forall j | 0 <= j < |members| && members[j] != e.fromUid
        ensures var k := Key(members[j], e.conv, e.maxSeq);
          if delivered[j] then k in Ledger().pending else if stored[j] then k in Ledger().box else k in Ledger().lost
      {
        assert IsKey(e, members, j, Key(members[j], e.conv, e.maxSeq));
      }
    }

    method HandleMember(e: PushEvent, uid: int, delivered: bool, stored: bool)
      requires pend.Valid()
      modifies this, pend
      ensures pend.Valid() && Ledger() == Handle(old(Ledger()), e, uid, delivered, stored) && marks == old(marks)
    {
      if uid == e.fromUid { return; }
      if delivered {
        var start := pend.Register(uid, e.conv, e.maxSeq, e);
        if start {
          chains := chains + [Chain(KeyOf(e, uid), 1, Asleep)];
          registered := registered + multiset{KeyOf(e, uid)};
        } else {
          assert pend.Waiting() == old(pend.Waiting());
        }
      } else {
        WriteOfflineBox(uid, e.conv, e.maxSeq, stored);
      }
    }

    method AckPush(uid: int, conv: int, ackSeq: int)
      requires pend.Valid()
      modifies this, pend
      ensures pend.Valid() && Ledger() == Ack(old(Ledger()), (uid, conv, ackSeq)) && marks == old(marks)
      ensures forall k :: k in pend.Waiting() <==>
                k in old(pend.Waiting()) && !(k.uid == uid && k.conv == conv && k.seqNo <= ackSeq)
    {
      pend.Ack(uid, conv, ackSeq);
      acks := acks + {(uid, conv, ackSeq)};
      assert pend.Waiting() == Ack(old(Ledger()), (uid, conv, ackSeq)).pending;
    }

    /** The callback of `retryFire` for chain `i`, run without interruption. */
    method OnTimer(i: nat, stored: bool)
      requires pend.Valid() && i < |chains| && chains[i].phase == Asleep
      modifies this, pend
      ensures pend.Valid() && Ledger() == OnTimerOf(old(Ledger()), i, stored) && marks == old(marks)
    {
      var c := chains[i];
      Callback(Ledger(), i, stored);
      var alive := pend.Alive(c.key.uid, c.key.conv, c.key.seqNo);
      if !alive {
        chains := chains[i := c.(phase := Over)];
        return;
      }
      repushed := repushed + multiset{c.key};
      if c.level >= RETRY_LEVELS {
        GiveUp(i, stored);
      } else {
        Reschedule(i);
      }
    }

    method Reschedule(i: nat)
      requires pend.Valid() && i < |chains|
      modifies this`chains
      ensures pend.Valid()
      ensures var c := old(chains)[i];
        chains == old(chains)[i :=
          if c.key in pend.Waiting() then Chain(c.key, c.level + 1, Asleep) else c.(phase := Over)]
    {
      var c := chains[i];
      var fire := pend.Schedule(c.key.uid, c.key.conv, c.key.seqNo);
      chains := chains[i := if fire.Some? then Chain(c.key, c.level + 1, Asleep) else c.(phase := Over)];
    }

    /** The last level: out of the registry, into the offline box. */
    method GiveUp(i: nat, stored: bool)
      requires pend.Valid() && i < |chains|
      modifies this, pend
      ensures pend.Valid() && marks == old(marks)
      ensures var b, c := old(Ledger()), old(chains)[i];
        Ledger() ==
          WriteBox(b.(pending := b.pending - {c.key}, chains := b.chains[i := c.(phase := Over)]), c.key, stored)
    {
      var c := chains[i];
      pend.Remove(c.key.uid, c.key.conv, c.key.seqNo);
      chains := chains[i := c.(phase := Over)];
      WriteOfflineBox(c.key.uid, c.key.conv, c.key.seqNo, stored);
    }
  }
}
