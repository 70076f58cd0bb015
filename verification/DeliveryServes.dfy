/**
 * What the steps of the delivery protocol achieve, next to what they keep: a scan of an open row, or the
 * consumption of its event, starts a fan-out that serves every member and closes the row; a row stays open
 * until a mark of it returns; an unacknowledged push is retried three times and boxed.
 */
module DeliveryServes {
  import opened Common
  import opened Delivery
  import opened DeliveryImpl
  import opened DeliverySafety

  // ---- How a fan-out starts ----

  /** The commit opens the row, and queues its event unless it is dropped. */
  lemma CommitOpens(s: State, e: PushEvent, queued: bool)
    requires (e.conv, e.msgId) !in s.rows
    ensures var t := Step(s, Commit(e, queued));
      && t.rows == s.rows[(e.conv, e.msgId) := Row(e.maxSeq, e.fromUid)] && t.status == s.status[(e.conv, e.msgId) := 0]
      && t.queue == s.queue + (if queued then [e] else [])
      && (t.books, t.fans, t.marks, t.flights) == (s.books, s.fans, s.marks, s.flights)
  {
  }

  /** Consuming an event with a member list starts its fan-out; it leaves the queue unless it is delivered again. */
  lemma ConsumeStarts(s: State, at: nat, members: seq<int>, again: bool)
    requires at < |s.queue|
    ensures var t := Step(s, Consume(at, Some(members), again));
      && t.fans == s.fans + [Fan(s.queue[at], members, 0, Running)]
      && t.queue == (if again then s.queue else s.queue[..at] + s.queue[at + 1..])
      && (t.books, t.rows, t.status, t.marks, t.flights) == (s.books, s.rows, s.status, s.marks, s.flights)
  {
  }

  /** A scan of an open row starts a fan-out of the event as it was committed. */
  lemma ScanStarts(s: State, row: RowKey, members: seq<int>)
    requires Inv(s) && row in s.status && s.status[row] == 0
    ensures row in s.rows
    ensures var t := Step(s, Scan(row, Some(members)));
      && t.fans == s.fans + [Fan(PushEvent(row.0, s.rows[row].seqNo, s.rows[row].fromUid, row.1), members, 0, Running)]
      && (t.books, t.rows, t.status, t.queue, t.marks, t.flights)
           == (s.books, s.rows, s.status, s.queue, s.marks, s.flights)
  {
  }

  /** A failed member lookup starts nothing and leaves the row to the next scan. */
  lemma LookupFails(s: State, at: nat, again: bool, row: RowKey)
    requires at < |s.queue| && row in s.rows
    ensures Step(s, Consume(at, None, again))
         == s.(queue := if again then s.queue else s.queue[..at] + s.queue[at + 1..])
    ensures Step(s, Scan(row, None)) == s
  {
  }

  /** An open row without a message is closed by the scan, which delivers nothing. */
  lemma ScanWithoutMessage(s: State, row: RowKey, members: Option<seq<int>>)
    requires row in s.status && s.status[row] == 0 && row !in s.rows
    ensures Step(s, Scan(row, members)) == s.(status := s.status[row := 1])
  {
  }

  // ---- What it achieves ----

  /** The rest of a fan-out of n members, up to the UPDATE that brings its mark to the table. */
  function Serving(fan: nat, flight: nat, delivered: seq<bool>, stored: seq<bool>): seq<Action>
    requires |delivered| == |stored|
  {
    MemberSteps(fan, delivered, stored, |delivered|) + [Finish(fan), TakeMarks, MarksReturn(flight, true)]
  }

  /** Everybody is registered, boxed or lost as the pushes turn out, and exactly the marked rows are closed. */
  ghost predicate ServedAll(s: State, t: State, row: RowKey, members: seq<int>, delivered: seq<bool>,
                            stored: seq<bool>)
    requires row in s.rows && |members| == |delivered| == |stored|
  {
    && FannedOut(s.books, t.books, PushEvent(row.0, s.rows[row].seqNo, s.rows[row].fromUid, row.1), members,
                 delivered, stored, |members|)
    && (forall uid | uid in members && uid != s.rows[row].fromUid :: Safe(t.books, Key(uid, row.0, s.rows[row].seqNo)))
    && row in t.status && t.status[row] == 1 && t.status.Keys == s.status.Keys
    && forall r | r in s.status && r != row && r !in s.marks :: t.status[r] == s.status[r]
  }

  lemma AfterMembers(s: State, u: State, fan: nat)
    requires fan < |u.fans| && u.fans[fan].phase == Running && u.fans[fan].next == |u.fans[fan].members|
    requires u.status == s.status && u.marks == s.marks && u.flights == s.flights && u.fans[fan].event.msgId != 0
    ensures var t, row := Run(u, [Finish(fan), TakeMarks, MarksReturn(|s.flights|, true)]),
                          (u.fans[fan].event.conv, u.fans[fan].event.msgId);
      && t.books == u.books && t.status.Keys == s.status.Keys
      && forall r | r in s.status ::
           t.status[r] == if s.status[r] == 0 && (r == row || r in s.marks) then 1 else s.status[r]
  {
    var row, f := (u.fans[fan].event.conv, u.fans[fan].event.msgId), |s.flights|;
    var v := Step(u, Finish(fan));
    assert v.marks == s.marks + {row} && v.status == s.status && v.flights == s.flights && v.books == u.books;
    var w := Step(v, TakeMarks);
    assert w.flights[f] == s.marks + {row} && w.status == s.status && w.books == u.books;
    Three(u, [Finish(fan), TakeMarks, MarksReturn(f, true)]);
    MarksLand(w, f);
  }

  lemma MarksLand(s: State, flight: nat)
    requires flight < |s.flights|
    ensures var t := Step(s, MarksReturn(flight, true));
      && t.books == s.books && t.status.Keys == s.status.Keys
      && forall r | r in s.status ::
           t.status[r] == if s.status[r] == 0 && r in s.flights[flight] then 1 else s.status[r]
  {
  }

  lemma FanServes(s: State, fan: nat, row: RowKey, delivered: seq<bool>, stored: seq<bool>)
    requires Inv(s) && fan < |s.fans| && s.fans[fan].phase == Running && s.fans[fan].next == 0
    requires |s.fans[fan].members| == |delivered| == |stored|
    requires row in s.status && s.status[row] == 0 && row in s.rows && row.1 != 0
    requires s.fans[fan].event == PushEvent(row.0, s.rows[row].seqNo, s.rows[row].fromUid, row.1)
    ensures ServedAll(s, Run(s, Serving(fan, |s.flights|, delivered, stored)), row, s.fans[fan].members,
                      delivered, stored)
  {
    var f, n := s.fans[fan], |delivered|;
    FanOutIsRun(s, fan, delivered, stored, n);
    var u := Run(s, MemberSteps(fan, delivered, stored, n));
    RunSplit(s, MemberSteps(fan, delivered, stored, n), [Finish(fan), TakeMarks, MarksReturn(|s.flights|, true)]);
    AfterMembers(s, u, fan);
    FanOutKeys(s.books, f.event, f.members, delivered, stored, n);
    FanOutServes(s.books, f.event, f.members, delivered, stored, n);
  }

  /** The whole redelivery of one row. */
  function Redelivery(s: State, row: RowKey, members: seq<int>, delivered: seq<bool>, stored: seq<bool>): seq<Action>
    requires |members| == |delivered| == |stored|
  {
    [Scan(row, Some(members))] + Serving(|s.fans|, |s.flights|, delivered, stored)
  }

  /**
   * A scan serves: from every reachable state, an open row that is scanned, fanned out and marked ends closed,
   * with every member it found registered, boxed or on record, however the pushes turn out.
   */
  lemma ScanServes(s: State, row: RowKey, members: seq<int>, delivered: seq<bool>, stored: seq<bool>)
    requires Inv(s) && row in s.status && s.status[row] == 0 && row.1 != 0
    requires |members| == |delivered| == |stored|
    ensures row in s.rows
    ensures ServedAll(s, Run(s, Redelivery(s, row, members, delivered, stored)), row, members, delivered, stored)
  {
    ScanStarts(s, row, members);
    ScanKeeps(s, row, Some(members));
    RunFirst(s, Scan(row, Some(members)), Serving(|s.fans|, |s.flights|, delivered, stored));
    FanServes(Step(s, Scan(row, Some(members))), |s.fans|, row, delivered, stored);
  }

  /** The normal path: an event in the queue, consumed once, fanned out and marked. */
  lemma ConsumeServes(s: State, at: nat, members: seq<int>, delivered: seq<bool>, stored: seq<bool>)
    requires Inv(s) && at < |s.queue| && |members| == |delivered| == |stored| && s.queue[at].msgId != 0
    requires var row := (s.queue[at].conv, s.queue[at].msgId); row in s.status && s.status[row] == 0
    ensures var row := (s.queue[at].conv, s.queue[at].msgId);
      row in s.rows &&
      ServedAll(s, Run(s, [Consume(at, Some(members), false)] + Serving(|s.fans|, |s.flights|, delivered, stored)), row,
             members, delivered, stored)
  {
    var row := (s.queue[at].conv, s.queue[at].msgId);
    assert Genuine(s, s.queue[at]);
    ConsumeStarts(s, at, members, false);
    ConsumeKeeps(s, at, Some(members), false);
    RunFirst(s, Consume(at, Some(members), false), Serving(|s.fans|, |s.flights|, delivered, stored));
    FanServes(Step(s, Consume(at, Some(members), false)), |s.fans|, row, delivered, stored);
  }

  /** The fan-out up to its mark. */
  function FanningOut(fan: nat, delivered: seq<bool>, stored: seq<bool>): seq<Action>
    requires |delivered| == |stored|
  {
    MemberSteps(fan, delivered, stored, |delivered|) + [Finish(fan)]
  }

  lemma FansOut(s: State, fan: nat, delivered: seq<bool>, stored: seq<bool>)
    requires fan < |s.fans| && s.fans[fan].phase == Running && s.fans[fan].next == 0
    requires |s.fans[fan].members| == |delivered| == |stored|
    ensures var e, t := s.fans[fan].event, Run(s, FanningOut(fan, delivered, stored));
      && t.books == FanOut(s.books, e, s.fans[fan].members, delivered, stored, |delivered|)
      && t.marks == if e.msgId != 0 then s.marks + {(e.conv, e.msgId)} else s.marks
  {
    FanOutIsRun(s, fan, delivered, stored, |delivered|);
    RunThen(s, MemberSteps(fan, delivered, stored, |delivered|), Finish(fan));
  }

  function Redelivering(s: State, row: RowKey, members: seq<int>, delivered: seq<bool>, stored: seq<bool>): seq<Action>
    requires |members| == |delivered| == |stored|
  {
    [Scan(row, Some(members))] + FanningOut(|s.fans|, delivered, stored)
  }

  /** Up to its mark, a redelivery is the deliverer's fan-out of the rebuilt event. */
  lemma RedeliveryFansOut(s: State, row: RowKey, members: seq<int>, delivered: seq<bool>, stored: seq<bool>)
    requires Inv(s) && row in s.status && s.status[row] == 0 && |members| == |delivered| == |stored|
    ensures row in s.rows
    ensures var e := PushEvent(row.0, s.rows[row].seqNo, s.rows[row].fromUid, row.1);
      var t := Run(s, Redelivering(s, row, members, delivered, stored));
      && t.books == FanOut(s.books, e, members, delivered, stored, |members|)
      && t.marks == if row.1 != 0 then s.marks + {row} else s.marks
  {
    ScanStarts(s, row, members);
    RunFirst(s, Scan(row, Some(members)), FanningOut(|s.fans|, delivered, stored));
    FansOut(Step(s, Scan(row, Some(members))), |s.fans|, delivered, stored);
  }

  // ---- Rows, acknowledgements and retries ----

  /** The step is an UPDATE that takes effect and carries the mark of r. */
  predicate Returns(s: State, a: Action, r: RowKey) {
    a.MarksReturn? && a.ok && a.flight < |s.flights| && r in s.flights[a.flight]
  }

  /** Exactly when a row of local_message changes: a mark of it returns, or it is cleaned up once it is closed. */
  lemma RowChanges(s: State, a: Action, r: RowKey)
    requires Inv(s) && r in s.status
    ensures var t := Step(s, a);
      && (r !in t.status <==> a == Cleanup(r) && s.status[r] == 1)
      && (r in t.status ==> t.status[r] == if s.status[r] == 0 && Returns(s, a, r) then 1 else s.status[r])
  {
    if a.Commit? { assert (a.e.conv, a.e.msgId) == r ==> r in s.rows; }
  }

  /** A panic ends the fan-out there and then: it handles nobody else, and its row is not marked. */
  lemma PanicAborts(s: State, fan: nat, delivered: bool, stored: bool)
    requires fan < |s.fans| && s.fans[fan].phase == Running
    ensures var t := Step(s, Panic(fan));
      && t.fans == s.fans[fan := s.fans[fan].(phase := Aborted)]
      && (t.books, t.rows, t.status, t.queue, t.marks, t.flights)
           == (s.books, s.rows, s.status, s.queue, s.marks, s.flights)
      && Step(t, Member(fan, delivered, stored)) == t && Step(t, Finish(fan)) == t
  {
  }

  /** An acknowledgement is cumulative, and ends the waiting of exactly the keys it reaches. */
  lemma AcknowledgeReaches(s: State, uid: int, conv: int, q: int, k: Key)
    ensures var t := Step(s, Acknowledge((uid, conv, q)));
      && (k in t.books.pending <==> k in s.books.pending && !(k.uid == uid && k.conv == conv && k.seqNo <= q))
      && (t.books.box, t.books.chains, t.books.lost) == (s.books.box, s.books.chains, s.books.lost)
      && (t.rows, t.status, t.queue, t.fans) == (s.rows, s.status, s.queue, s.fans)
  {
  }

  /** A crash takes what the process held, and nothing that is stored. */
  lemma CrashForgets(s: State, queueLost: bool)
    ensures var t := Step(s, Crash(queueLost));
      && t.books.pending == {} && t.marks == {} && t.flights == [] && t.queue == (if queueLost then [] else s.queue)
      && (forall i | 0 <= i < |t.books.chains| :: t.books.chains[i].phase == Over)
      && (forall f | 0 <= f < |t.fans| :: t.fans[f].phase != Running)
      && (t.books.box, t.books.acks, t.rows, t.status) == (s.books.box, s.books.acks, s.rows, s.status)
  {
  }

  /** One undisturbed timer callback of chain i. */
  function Callbacks(i: nat, stored: bool): seq<Action> {
    [TimerFires(i), PushStarts(i)] + [PushReturns(i), BoxReturns(i, stored)]
  }

  lemma Two(s: State, a: Action, b: Action)
    ensures Run(s, [a, b]) == Step(Step(s, a), b)
  {
    RunFirst(s, a, [b]);
    RunFirst(Step(s, a), b, []);
    assert [a] + [b] == [a, b] && [b] + [] == [b];
  }

  lemma TimerPushes(s: State, i: nat)
    ensures Run(s, [TimerFires(i), PushStarts(i)]) == s.(books := Repush(Fire(s.books, i), i))
  {
    Two(s, TimerFires(i), PushStarts(i));
  }

  lemma PushReturned(s: State, i: nat)
    ensures Step(s, PushReturns(i)) == s.(books := AfterPush(s.books, i))
  {
  }

  lemma BoxReturned(s: State, i: nat, stored: bool)
    ensures Step(s, BoxReturns(i, stored)) == s.(books := BoxTimeout(s.books, i, stored))
  {
  }

  lemma PushEnds(s: State, i: nat, stored: bool)
    ensures Run(s, [PushReturns(i), BoxReturns(i, stored)])
         == s.(books := BoxTimeout(AfterPush(s.books, i), i, stored))
  {
    PushReturned(s, i);
    BoxReturned(Step(s, PushReturns(i)), i, stored);
    Two(s, PushReturns(i), BoxReturns(i, stored));
  }

  lemma CallbackIsRun(s: State, i: nat, stored: bool)
    ensures Run(s, Callbacks(i, stored)) == s.(books := OnTimerOf(s.books, i, stored))
  {
    TimerPushes(s, i);
    PushEnds(Run(s, [TimerFires(i), PushStarts(i)]), i, stored);
    RunSplit(s, [TimerFires(i), PushStarts(i)], [PushReturns(i), BoxReturns(i, stored)]);
  }

  /** In the protocol: a key never acknowledged is pushed again three times, waits meanwhile, and is then boxed. */
  lemma UnackedIsBoxed(s: State, i: nat, k: Key)
    requires i < |s.books.chains| && s.books.chains[i] == Chain(k, 1, Asleep) && k in s.books.pending
    ensures var two := Run(s, Callbacks(i, true) + Callbacks(i, true)).books;
      && k in two.pending && two.box == s.books.box && two.repushed[k] == s.books.repushed[k] + 2
    ensures var b := Run(s, Callbacks(i, true) + Callbacks(i, true) + Callbacks(i, true)).books;
      && b.repushed[k] == s.books.repushed[k] + 3 && b.pending == s.books.pending - {k}
      && b.box == s.books.box + {k} && i < |b.chains| && b.chains[i].phase == Over
  {
    var c := Callbacks(i, true);
    var s1 := Run(s, c);
    var s2 := Run(s1, c);
    CallbackIsRun(s, i, true);
    CallbackIsRun(s1, i, true);
    CallbackIsRun(s2, i, true);
    RunSplit(s, c, c);
    RunSplit(s, c + c, c);
    Callback(s.books, i, true);
    Callback(s1.books, i, true);
    UnackedGoesToBox(s.books, i, k);
  }
}
