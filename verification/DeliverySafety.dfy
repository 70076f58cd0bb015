/** Over every run of the delivery protocol no recipient is forgotten, and retries stay within their budget. */
module DeliverySafety {
  import opened Common
  import opened Delivery

  // ---- Every step keeps the invariant ----

  /** Fan-outs are only added, and a finished one stays as it is. */
  ghost predicate Keeps(s: State, t: State) {
    |s.fans| <= |t.fans| && forall f | 0 <= f < |s.fans| ::
      t.fans[f].event == s.fans[f].event && (s.fans[f].phase == Finished ==> t.fans[f].phase == Finished)
  }

  lemma ClosedStays(s: State, t: State, r: RowKey)
    requires Keeps(s, t)
    ensures Closed(s, r) ==> Closed(t, r)
  {
    if Closed(s, r) {
      var f: nat :| Served(s, r, f);
      assert Served(t, r, f);
    }
  }

  lemma BooksKeep(s: State, books: Books)
    requires Inv(s) && Follows(s.books, books)
    ensures Inv(s.(books := books))
  {
    var t := s.(books := books);
    forall r ensures Closed(s, r) ==> Closed(t, r) { ClosedStays(s, t, r); }
    assert Events(t) by { assert forall e :: Genuine(s, e) == Genuine(t, e); }
  }

  /** A step that only moves fan-outs and books forward keeps what the tables and the queue rest on. */
  lemma TablesKeep(s: State, t: State)
    requires Inv(s) && Keeps(s, t) && t.rows == s.rows && t.status == s.status && t.queue == s.queue
    requires t.marks == s.marks && t.flights == s.flights && |t.fans| == |s.fans|
    ensures Events(t) && Marks(t) && Statuses(t)
  {
    forall r ensures Closed(s, r) ==> Closed(t, r) { ClosedStays(s, t, r); }
    assert forall e :: Genuine(s, e) == Genuine(t, e);
  }

  lemma MemberKeeps(s: State, fan: nat, delivered: bool, stored: bool)
    requires Inv(s) && fan < |s.fans| && s.fans[fan].phase == Running && s.fans[fan].next < |s.fans[fan].members|
    ensures Inv(Step(s, Member(fan, delivered, stored)))
  {
    var f, t := s.fans[fan], Step(s, Member(fan, delivered, stored));
    MemberHandled(s, fan, delivered, stored);
    TablesKeep(s, t);
  }

  lemma MemberHandled(s: State, fan: nat, delivered: bool, stored: bool)
    requires Chained(s.books) && Fans(s) && Handled(s)
    requires fan < |s.fans| && s.fans[fan].phase == Running && s.fans[fan].next < |s.fans[fan].members|
    ensures var t := Step(s, Member(fan, delivered, stored)); Chained(t.books) && Handled(t)
  {
    var f, t := s.fans[fan], Step(s, Member(fan, delivered, stored));
    HandleFollows(s.books, f.event, f.members[f.next], delivered, stored);
    forall g, j | 0 <= g < |t.fans| && 0 <= j < t.fans[g].next && t.fans[g].members[j] != t.fans[g].event.fromUid
      ensures Safe(t.books, KeyOf(t.fans[g].event, t.fans[g].members[j]))
    {
      if g != fan || j < f.next {
        assert Safe(s.books, KeyOf(s.fans[g].event, s.fans[g].members[j]));
      }
    }
  }

  lemma FinishKeeps(s: State, fan: nat)
    requires Inv(s) && fan < |s.fans| && s.fans[fan].phase == Running && s.fans[fan].next == |s.fans[fan].members|
    ensures Inv(Step(s, Finish(fan)))
  {
    var t := Step(s, Finish(fan));
    forall r ensures Closed(s, r) ==> Closed(t, r) { ClosedStays(s, t, r); }
    assert Served(t, RowOf(s.fans[fan].event), fan);
    assert forall e :: Genuine(s, e) == Genuine(t, e);
  }

  lemma CommitKeeps(s: State, e: PushEvent, queued: bool)
    requires Inv(s)
    ensures Inv(Step(s, Commit(e, queued)))
  {
    var t := Step(s, Commit(e, queued));
    forall r ensures Closed(s, r) ==> Closed(t, r) { ClosedStays(s, t, r); }
    assert forall d | Genuine(s, d) :: Genuine(t, d);
  }

  lemma BeginKeeps(s: State, e: PushEvent, members: Option<seq<int>>)
    requires Inv(s) && Genuine(s, e)
    ensures Inv(Begin(s, e, members))
  {
    var t := Begin(s, e, members);
    forall r ensures Closed(s, r) ==> Closed(t, r) { ClosedStays(s, t, r); }
    assert forall d :: Genuine(s, d) == Genuine(t, d);
  }

  lemma DequeueKeeps(s: State, queue: seq<PushEvent>)
    requires Inv(s) && forall e | e in queue :: e in s.queue
    ensures Inv(s.(queue := queue))
  {
    var t := s.(queue := queue);
    forall r ensures Closed(s, r) ==> Closed(t, r) { ClosedStays(s, t, r); }
    assert forall e :: Genuine(s, e) == Genuine(t, e);
    assert forall i | 0 <= i < |queue| :: queue[i] in queue;
  }

  lemma ConsumeKeeps(s: State, at: nat, members: Option<seq<int>>, again: bool)
    requires Inv(s) && at < |s.queue|
    ensures Inv(Step(s, Consume(at, members, again)))
  {
    var queue := if again then s.queue else s.queue[..at] + s.queue[at + 1..];
    DequeueKeeps(s, queue);
    BeginKeeps(s.(queue := queue), s.queue[at], members);
  }

  /** A scanned row always has its message, so the row-missing branch never runs; the event is rebuilt as committed. */
  lemma ScanKeeps(s: State, row: RowKey, members: Option<seq<int>>)
    requires Inv(s)
    ensures Inv(Step(s, Scan(row, members)))
    ensures row in s.status ==> row in s.rows
  {
    if row in s.status && s.status[row] == 0 {
      BeginKeeps(s, PushEvent(row.0, s.rows[row].seqNo, s.rows[row].fromUid, row.1), members);
    }
  }

  lemma MarksReturnKeeps(s: State, flight: nat, ok: bool)
    requires Inv(s) && flight < |s.flights|
    ensures Inv(Step(s, MarksReturn(flight, ok)))
  {
    var t := Step(s, MarksReturn(flight, ok));
    forall r ensures Closed(s, r) ==> Closed(t, r) { ClosedStays(s, t, r); }
    assert forall e :: Genuine(s, e) == Genuine(t, e);
    assert t.status.Keys == s.status.Keys;
  }

  lemma SmallKeeps(s: State, a: Action)
    requires Inv(s) && (a.TakeMarks? || a.Cleanup?)
    ensures Inv(Step(s, a))
  {
    var t := Step(s, a);
    forall r ensures Closed(s, r) ==> Closed(t, r) { ClosedStays(s, t, r); }
    assert forall e :: Genuine(s, e) == Genuine(t, e);
  }

  lemma PanicKeeps(s: State, fan: nat)
    requires Inv(s)
    ensures Inv(Step(s, Panic(fan)))
  {
    TablesKeep(s, Step(s, Panic(fan)));
  }

  lemma CrashKeeps(s: State, queueLost: bool)
    requires Inv(s)
    ensures Inv(Step(s, Crash(queueLost)))
  {
    var t := Step(s, Crash(queueLost));
    ForgetFollows(s.books);
    forall r ensures Closed(s, r) ==> Closed(t, r) { ClosedStays(s, t, r); }
    assert forall e :: Genuine(s, e) == Genuine(t, e);
  }

  lemma StepKeeps(s: State, a: Action)
    requires Inv(s)
    ensures Inv(Step(s, a))
  {
    match a
    case Commit(e, queued) => CommitKeeps(s, e, queued);
    case Consume(at, members, again) => if at < |s.queue| { ConsumeKeeps(s, at, members, again); }
    case Scan(row, members) => ScanKeeps(s, row, members);
    case Member(fan, delivered, stored) =>
      if fan < |s.fans| && s.fans[fan].phase == Running && s.fans[fan].next < |s.fans[fan].members| {
        MemberKeeps(s, fan, delivered, stored);
      }
    case Finish(fan) =>
      if fan < |s.fans| && s.fans[fan].phase == Running && s.fans[fan].next == |s.fans[fan].members| {
        FinishKeeps(s, fan);
      }
    case TimerFires(chain) => FireFollows(s.books, chain); BooksKeep(s, Fire(s.books, chain));
    case PushStarts(chain) => RepushFollows(s.books, chain); BooksKeep(s, Repush(s.books, chain));
    case PushReturns(chain) => AfterPushFollows(s.books, chain); BooksKeep(s, AfterPush(s.books, chain));
    case BoxReturns(chain, stored) =>
      BoxTimeoutFollows(s.books, chain, stored);
      BooksKeep(s, BoxTimeout(s.books, chain, stored));
    case Acknowledge(ack) => AckFollows(s.books, ack); BooksKeep(s, Ack(s.books, ack));
    case MarksReturn(flight, ok) => if flight < |s.flights| { MarksReturnKeeps(s, flight, ok); }
    case Crash(queueLost) => CrashKeeps(s, queueLost);
    case Panic(fan) => PanicKeeps(s, fan);
    case _ => SmallKeeps(s, a);
  }

  lemma {:induction false} RunKeeps(s: State, acts: seq<Action>)
    requires Inv(s)
    ensures Inv(Run(s, acts))
    decreases |acts|
  {
    if acts == [] {
    } else {
      StepKeeps(s, acts[0]);
      RunKeeps(Step(s, acts[0]), acts[1..]);
    }
  }

  // ---- The main theorem ----

  /** Every non-sender the fan-out read waits with a live chain, has acknowledged, or is in the offline box. */
  ghost predicate AllServed(s: State, f: nat)
    requires f < |s.fans|
  {
    forall j | 0 <= j < |s.fans[f].members| :: s.fans[f].members[j] != s.fans[f].event.fromUid ==>
      Safe(s.books, KeyOf(s.fans[f].event, s.fans[f].members[j]))
  }

  ghost predicate Remembered(s: State, r: RowKey) {
    || (r in s.status && s.status[r] == 0)
    || exists f: nat :: Served(s, r, f) && AllServed(s, f) && Genuine(s, s.fans[f].event)
  }

  /** After any run: a committed message is still open for the scan, or a whole fan-out of it is served. */
  lemma NobodyForgotten(acts: seq<Action>, r: RowKey)
    requires r in Run(START, acts).rows
    ensures Remembered(Run(START, acts), r)
  {
    var s := Run(START, acts);
    RunKeeps(START, acts);
    if !(r in s.status && s.status[r] == 0) {
      var f: nat :| Served(s, r, f);
      assert AllServed(s, f);
    }
  }

  predicate Faultless(a: Action) {
    match a
    case Member(_, delivered, stored) => delivered || stored
    case BoxReturns(_, stored) => stored
    case Crash(_) => false
    case _ => true
  }

  /** Nothing is ever lost while every offline-box write succeeds and the process stays up. */
  lemma {:induction false} NothingLost(s: State, acts: seq<Action>)
    requires s.books.lost == {} && forall i | 0 <= i < |acts| :: Faultless(acts[i])
    ensures Run(s, acts).books.lost == {}
    decreases |acts|
  {
    if acts == [] {
    } else {
      assert Faultless(acts[0]);
      NothingLost(Step(s, acts[0]), acts[1..]);
    }
  }

  /** A failed offline-box write is only logged: the message is marked done although its recipient has nothing. */
  lemma FailedBoxForgets()
    ensures
      var e := PushEvent(1, 1, 10, 5);
      var s := Run(START, [Commit(e, true), Consume(0, Some([20]), false), Member(0, false, false), Finish(0),
                           TakeMarks, MarksReturn(0, true)]);
      var k := Key(20, 1, 1);
      s.status == map[(1, 5) := 1] && k !in s.books.pending && !Acked(s.books, k) && k !in s.books.box &&
      s.books.chains == [] && s.queue == []
  {
    var e := PushEvent(1, 1, 10, 5);
    var start, rest := [Commit(e, true), Consume(0, Some([20]), false), Member(0, false, false)],
                       [Finish(0), TakeMarks, MarksReturn(0, true)];
    var mid := State(NO_BOOKS.(lost := {Key(20, 1, 1)}), map[(1, 5) := Row(1, 10)], map[(1, 5) := 0], [],
                     [Fan(e, [20], 1, Running)], {}, []);
    FanOutFails(e, start, mid);
    MarkedDone(mid, rest);
    RunSplit(START, start, rest);
    assert start + rest == [Commit(e, true), Consume(0, Some([20]), false), Member(0, false, false), Finish(0),
                            TakeMarks, MarksReturn(0, true)];
  }

  lemma FanOutFails(e: PushEvent, acts: seq<Action>, end: State)
    requires e == PushEvent(1, 1, 10, 5)
    requires acts == [Commit(e, true), Consume(0, Some([20]), false), Member(0, false, false)]
    requires end == State(NO_BOOKS.(lost := {Key(20, 1, 1)}), map[(1, 5) := Row(1, 10)], map[(1, 5) := 0], [],
                          [Fan(e, [20], 1, Running)], {}, [])
    ensures Run(START, acts) == end
  {
    var s1 := Step(START, acts[0]);
    var s2 := Step(s1, acts[1]);
    assert s2 == State(NO_BOOKS, map[(1, 5) := Row(1, 10)], map[(1, 5) := 0], [], [Fan(e, [20], 0, Running)], {}, []);
    assert Step(s2, acts[2]) == end;
    Three(START, acts);
  }

  lemma MarkedDone(s: State, acts: seq<Action>)
    requires acts == [Finish(0), TakeMarks, MarksReturn(0, true)]
    requires s.status == map[(1, 5) := 0] && s.marks == {} && s.flights == []
    requires |s.fans| == 1 && s.fans[0] == Fan(PushEvent(1, 1, 10, 5), [20], 1, Running)
    ensures var t := Run(s, acts); t.status == map[(1, 5) := 1] && t.books == s.books && t.queue == s.queue
  {
    var s1 := Step(s, acts[0]);
    var s2 := Step(s1, acts[1]);
    assert RowOf(s.fans[0].event) == (1, 5) && s1.marks == {(1, 5)};
    assert s2.flights == [] + [{(1, 5)}];
    assert Step(s2, acts[2]).status == Marked(s.status, {(1, 5)});
    Three(s, acts);
  }

  lemma Three(s: State, acts: seq<Action>)
    requires |acts| == 3
    ensures Run(s, acts) == Step(Step(Step(s, acts[0]), acts[1]), acts[2])
  {
    var t := Step(s, acts[0]);
    var u := Step(t, acts[1]);
    assert Run(s, acts) == Run(t, acts[1..]) && acts[1..][0] == acts[1];
    assert acts[1..][1..] == acts[2..] && Run(t, acts[1..]) == Run(u, acts[2..]);
    assert acts[2..][1..] == [] && Run(u, acts[2..]) == Run(Step(u, acts[2]), []);
  }

  lemma {:induction false} RunSplit(s: State, a: seq<Action>, b: seq<Action>)
    ensures Run(s, a + b) == Run(Run(s, a), b)
    decreases |a|
  {
    if a == [] {
      assert a + b == b;
    } else {
      assert (a + b)[1..] == a[1..] + b;
      RunSplit(Step(s, a[0]), a[1..], b);
    }
  }

  lemma RunThen(s: State, acts: seq<Action>, a: Action)
    ensures Run(s, acts + [a]) == Step(Run(s, acts), a)
  {
    RunSplit(s, acts, [a]);
    assert [a][1..] == [];
  }

  lemma RunFirst(s: State, a: Action, acts: seq<Action>)
    ensures Run(s, [a] + acts) == Run(Step(s, a), acts)
  {
    assert ([a] + acts)[1..] == acts;
  }

  // ---- Retry chains ----

  /** Retry pushes a chain may still make. */
  function Left(c: Chain): nat {
    if c.phase in {Asleep, Checked} && c.level <= RETRY_LEVELS && c.level >= 1 then RETRY_LEVELS + 1 - c.level
    else if c.phase == Pushed && c.level <= RETRY_LEVELS && c.level >= 1 then RETRY_LEVELS - c.level
    else 0
  }

  function LeftFor(chains: seq<Chain>, k: Key): nat {
    if chains == [] then 0 else LeftFor(chains[..|chains| - 1], k) + LeftOf(chains[|chains| - 1], k)
  }

  function LeftOf(c: Chain, k: Key): nat {
    if c.key == k then Left(c) else 0
  }

  lemma {:induction false} LeftUpdate(chains: seq<Chain>, i: nat, c: Chain, k: Key)
    requires i < |chains|
    ensures LeftFor(chains[i := c], k) == LeftFor(chains, k) - LeftOf(chains[i], k) + LeftOf(c, k)
  {
    var n := |chains| - 1;
    if i == n {
      assert chains[i := c][..n] == chains[..n];
    } else {
      LeftUpdate(chains[..n], i, c, k);
      assert chains[i := c][..n] == chains[..n][i := c];
    }
  }

  lemma {:induction false} NoneLeft(chains: seq<Chain>, k: Key)
    requires forall i | 0 <= i < |chains| :: chains[i].phase in {Boxing, Over}
    ensures LeftFor(chains, k) == 0
  {
    if chains == [] {
    } else {
      NoneLeft(chains[..|chains| - 1], k);
    }
  }

  /** The budget: pushes made plus pushes left never exceed three per registration. */
  ghost predicate Budget(b: Books, k: Key) {
    b.repushed[k] + LeftFor(b.chains, k) <= RETRY_LEVELS * b.registered[k]
  }

  lemma RegisterBudget(b: Books, j: Key, k: Key)
    requires Budget(b, k)
    ensures Budget(Register(b, j), k)
  {
    if j !in b.pending {
      assert (b.chains + [Chain(j, 1, Asleep)])[..|b.chains|] == b.chains;
    }
  }

  lemma FireBudget(b: Books, i: nat, k: Key)
    requires Budget(b, k) && Levels(b)
    ensures Budget(Fire(b, i), k)
  {
    if i < |b.chains| { LeftUpdate(b.chains, i, Fire(b, i).chains[i], k); }
  }

  lemma RepushBudget(b: Books, i: nat, k: Key)
    requires Budget(b, k) && Levels(b)
    ensures Budget(Repush(b, i), k)
  {
    if i < |b.chains| { LeftUpdate(b.chains, i, Repush(b, i).chains[i], k); }
  }

  lemma AfterPushBudget(b: Books, i: nat, k: Key)
    requires Budget(b, k) && Levels(b)
    ensures Budget(AfterPush(b, i), k)
  {
    if i < |b.chains| { LeftUpdate(b.chains, i, AfterPush(b, i).chains[i], k); }
  }

  lemma BoxTimeoutBudget(b: Books, i: nat, stored: bool, k: Key)
    requires Budget(b, k)
    ensures Budget(BoxTimeout(b, i, stored), k)
  {
    if i < |b.chains| { LeftUpdate(b.chains, i, BoxTimeout(b, i, stored).chains[i], k); }
  }

  lemma ForgetBudget(b: Books, k: Key)
    requires Budget(b, k)
    ensures Budget(Forget(b), k)
  {
    NoneLeft(Forget(b).chains, k);
  }

  lemma StepBudget(s: State, a: Action, k: Key)
    requires Budget(s.books, k) && Levels(s.books)
    ensures Budget(Step(s, a).books, k)
  {
    match a
    case Member(fan, delivered, stored) =>
      if fan < |s.fans| && s.fans[fan].next < |s.fans[fan].members| {
        RegisterBudget(s.books, KeyOf(s.fans[fan].event, s.fans[fan].members[s.fans[fan].next]), k);
      }
    case TimerFires(chain) => FireBudget(s.books, chain, k);
    case PushStarts(chain) => RepushBudget(s.books, chain, k);
    case PushReturns(chain) => AfterPushBudget(s.books, chain, k);
    case BoxReturns(chain, stored) => BoxTimeoutBudget(s.books, chain, stored, k);
    case Crash(_) => ForgetBudget(s.books, k);
    case _ =>
  }

  lemma {:induction false} RunBudget(s: State, acts: seq<Action>, k: Key)
    requires Inv(s) && Budget(s.books, k)
    ensures Budget(Run(s, acts).books, k)
    decreases |acts|
  {
    if acts == [] {
    } else {
      StepKeeps(s, acts[0]);
      StepBudget(s, acts[0], k);
      RunBudget(Step(s, acts[0]), acts[1..], k);
    }
  }

  /** Whatever acks and re-registrations race with old timers. */
  lemma RetryChains(acts: seq<Action>, k: Key)
    ensures
      var b := Run(START, acts).books;
      (k in b.pending ==> HasLiveChain(b, k)) && b.repushed[k] <= RETRY_LEVELS * b.registered[k]
  {
    RunKeeps(START, acts);
    RunBudget(START, acts, k);
  }

  /** Once no timer is left, every recipient of a marked message has acknowledged, is in the box, or was lost. */
  lemma QuietMeansServed(acts: seq<Action>, r: RowKey)
    requires var s := Run(START, acts);
      r in s.rows && !(r in s.status && s.status[r] == 0) &&
      forall i | 0 <= i < |s.books.chains| :: s.books.chains[i].phase == Over
    ensures var s := Run(START, acts);
      exists f: nat :: Served(s, r, f) && SettledFan(s, f)
  {
    NobodyForgotten(acts, r);
    var s := Run(START, acts);
    var f: nat :| Served(s, r, f) && AllServed(s, f);
    forall j | 0 <= j < |s.fans[f].members| && s.fans[f].members[j] != s.fans[f].event.fromUid
      ensures Settled(s.books, KeyOf(s.fans[f].event, s.fans[f].members[j]))
    {
      var k := KeyOf(s.fans[f].event, s.fans[f].members[j]);
      assert Safe(s.books, k);
      assert !HasLiveChain(s.books, k);
    }
    assert SettledFan(s, f);
  }

  ghost predicate Settled(b: Books, k: Key) {
    Acked(b, k) || k in b.box || k in b.lost
  }

  ghost predicate SettledFan(s: State, f: nat) {
    f < |s.fans| && forall j | 0 <= j < |s.fans[f].members| :: s.fans[f].members[j] != s.fans[f].event.fromUid ==>
      Settled(s.books, KeyOf(s.fans[f].event, s.fans[f].members[j]))
  }

  // ---- An acknowledgement stops the retries ----

  /** The fan-out handles recipient k in this step. */
  predicate Handles(s: State, a: Action, k: Key) {
    && a.Member? && a.fan < |s.fans| && s.fans[a.fan].phase == Running && s.fans[a.fan].next < |s.fans[a.fan].members|
    && var f := s.fans[a.fan];
       f.members[f.next] != f.event.fromUid && KeyOf(f.event, f.members[f.next]) == k
  }

  ghost predicate NeverAgain(s: State, acts: seq<Action>, k: Key)
    decreases |acts|
  {
    acts == [] || (!Handles(s, acts[0], k) && NeverAgain(Step(s, acts[0]), acts[1..], k))
  }

  /** Chains of k that have passed their check and not yet pushed. */
  function ChecksOf(chains: seq<Chain>, k: Key): nat {
    if chains == [] then 0 else ChecksOf(chains[..|chains| - 1], k) + CheckOf(chains[|chains| - 1], k)
  }

  function CheckOf(c: Chain, k: Key): nat {
    if c.key == k && c.phase == Checked then 1 else 0
  }

  lemma {:induction false} ChecksUpdate(chains: seq<Chain>, i: nat, c: Chain, k: Key)
    requires i < |chains|
    ensures ChecksOf(chains[i := c], k) == ChecksOf(chains, k) - CheckOf(chains[i], k) + CheckOf(c, k)
  {
    var n := |chains| - 1;
    if i == n {
      assert chains[i := c][..n] == chains[..n];
    } else {
      ChecksUpdate(chains[..n], i, c, k);
      assert chains[i := c][..n] == chains[..n][i := c];
    }
  }

  lemma {:induction false} NoChecks(chains: seq<Chain>, k: Key)
    requires forall i | 0 <= i < |chains| :: chains[i].phase == Over
    ensures ChecksOf(chains, k) == 0
  {
    if chains == [] {
    } else {
      NoChecks(chains[..|chains| - 1], k);
    }
  }

  /** The key does not wait; what has been pushed and what is past its check does not grow. */
  ghost predicate Quieter(b: Books, c: Books, k: Key) {
    k !in c.pending && b.repushed[k] <= c.repushed[k]
    && c.repushed[k] + ChecksOf(c.chains, k) <= b.repushed[k] + ChecksOf(b.chains, k)
  }

  /** One chain moves on, and at most its own push is made. */
  lemma ChainQuieter(b: Books, c: Books, i: nat, x: Chain, k: Key)
    requires k !in b.pending && k !in c.pending && i < |b.chains| && c.chains == b.chains[i := x]
    requires b.repushed[k] <= c.repushed[k] && c.repushed[k] + CheckOf(x, k) <= b.repushed[k] + CheckOf(b.chains[i], k)
    ensures Quieter(b, c, k)
  {
    ChecksUpdate(b.chains, i, x, k);
  }

  lemma FireQuieter(b: Books, i: nat, k: Key)
    requires k !in b.pending
    ensures Quieter(b, Fire(b, i), k)
  {
    if i < |b.chains| && b.chains[i].phase == Asleep { ChainQuieter(b, Fire(b, i), i, Fire(b, i).chains[i], k); }
  }

  lemma RepushQuieter(b: Books, i: nat, k: Key)
    requires k !in b.pending
    ensures Quieter(b, Repush(b, i), k)
  {
    if i < |b.chains| && b.chains[i].phase == Checked { ChainQuieter(b, Repush(b, i), i, Repush(b, i).chains[i], k); }
  }

  lemma AfterPushQuieter(b: Books, i: nat, k: Key)
    requires k !in b.pending
    ensures Quieter(b, AfterPush(b, i), k)
  {
    if i < |b.chains| && b.chains[i].phase == Pushed {
      ChainQuieter(b, AfterPush(b, i), i, AfterPush(b, i).chains[i], k);
    }
  }

  lemma BoxTimeoutQuieter(b: Books, i: nat, stored: bool, k: Key)
    requires k !in b.pending
    ensures Quieter(b, BoxTimeout(b, i, stored), k)
  {
    if i < |b.chains| && b.chains[i].phase == Boxing {
      ChainQuieter(b, BoxTimeout(b, i, stored), i, BoxTimeout(b, i, stored).chains[i], k);
    }
  }

  lemma RegisterQuieter(b: Books, j: Key, k: Key)
    requires k !in b.pending && j != k
    ensures Quieter(b, Register(b, j), k)
  {
    if j !in b.pending {
      assert (b.chains + [Chain(j, 1, Asleep)])[..|b.chains|] == b.chains;
    }
  }

  lemma SilentStep(s: State, a: Action, k: Key)
    requires k !in s.books.pending && !Handles(s, a, k)
    ensures Quieter(s.books, Step(s, a).books, k)
  {
    match a
    case Member(fan, delivered, stored) =>
      if fan < |s.fans| && s.fans[fan].phase == Running && s.fans[fan].next < |s.fans[fan].members| {
        var f := s.fans[fan];
        if f.members[f.next] != f.event.fromUid { RegisterQuieter(s.books, KeyOf(f.event, f.members[f.next]), k); }
      }
    case TimerFires(chain) => FireQuieter(s.books, chain, k);
    case PushStarts(chain) => RepushQuieter(s.books, chain, k);
    case PushReturns(chain) => AfterPushQuieter(s.books, chain, k);
    case BoxReturns(chain, stored) => BoxTimeoutQuieter(s.books, chain, stored, k);
    case Crash(_) => NoChecks(Forget(s.books).chains, k);
    case _ =>
  }

  lemma {:induction false} SilentRun(s: State, acts: seq<Action>, k: Key)
    requires k !in s.books.pending && NeverAgain(s, acts, k)
    ensures Quieter(s.books, Run(s, acts).books, k)
    decreases |acts|
  {
    if acts == [] {
    } else {
      SilentStep(s, acts[0], k);
      SilentRun(Step(s, acts[0]), acts[1..], k);
    }
  }

  /**
   * After an ack covering `k`, and until a fan-out handles that recipient anew, the only pushes of `k` are those
   * of callbacks that had passed their check when the ack came in, one each.
   */
  lemma AckSilences(s: State, ack: (int, int, int), acts: seq<Action>, k: Key)
    requires Covers(ack, k) && NeverAgain(Step(s, Acknowledge(ack)), acts, k)
    ensures var t := Run(s, [Acknowledge(ack)] + acts);
      s.books.repushed[k] <= t.books.repushed[k] <= s.books.repushed[k] + ChecksOf(s.books.chains, k)
  {
    SilentRun(Step(s, Acknowledge(ack)), acts, k);
    RunFirst(s, Acknowledge(ack), acts);
  }

  /** The pushes of all callbacks that have passed their check, chain by chain. */
  function LatePushes(n: nat): seq<Action> {
    if n == 0 then [] else LatePushes(n - 1) + [PushStarts(n - 1)]
  }

  lemma {:induction false} OnlyPushes(n: nat)
    ensures forall i | 0 <= i < |LatePushes(n)| :: LatePushes(n)[i].PushStarts?
  {
    if n == 0 {
    } else {
      OnlyPushes(n - 1);
    }
  }

  lemma {:induction false} NoFanOut(s: State, acts: seq<Action>, k: Key)
    requires forall i | 0 <= i < |acts| :: acts[i].PushStarts?
    ensures NeverAgain(s, acts, k)
    decreases |acts|
  {
    if acts == [] {
    } else {
      NoFanOut(Step(s, acts[0]), acts[1..], k);
    }
  }

  /** The first n chains have made the pushes they were past their check for; the others have not moved. */
  ghost predicate PushedSoFar(b: Books, c: Books, n: nat, k: Key)
    requires n <= |b.chains|
  {
    c.repushed[k] == b.repushed[k] + ChecksOf(b.chains[..n], k) &&
    |c.chains| == |b.chains| && forall i | n <= i < |b.chains| :: c.chains[i] == b.chains[i]
  }

  lemma PushNext(b: Books, c: Books, n: nat, k: Key)
    requires n < |b.chains| && PushedSoFar(b, c, n, k)
    ensures PushedSoFar(b, Repush(c, n), n + 1, k)
  {
    assert b.chains[..n + 1][..n] == b.chains[..n];
  }

  lemma {:induction false} LatePushesRun(s: State, n: nat, k: Key)
    requires n <= |s.books.chains|
    ensures PushedSoFar(s.books, Run(s, LatePushes(n)).books, n, k)
    decreases n
  {
    if n == 0 {
    } else {
      LatePushesRun(s, n - 1, k);
      RunThen(s, LatePushes(n - 1), PushStarts(n - 1));
      PushNext(s.books, Run(s, LatePushes(n - 1)).books, n - 1, k);
    }
  }

  lemma PushesRun(s: State, k: Key)
    ensures var acts := LatePushes(|s.books.chains|);
      && NeverAgain(s, acts, k)
      && Run(s, acts).books.repushed[k] == s.books.repushed[k] + ChecksOf(s.books.chains, k)
  {
    var n := |s.books.chains|;
    OnlyPushes(n);
    NoFanOut(s, LatePushes(n), k);
    LatePushesRun(s, n, k);
    assert s.books.chains[..n] == s.books.chains;
  }

  /** The bound is exact: every callback past its check when the ack comes in can still push. */
  lemma LatePushesHappen(s: State, ack: (int, int, int), k: Key)
    ensures var acts := LatePushes(|s.books.chains|);
      && NeverAgain(Step(s, Acknowledge(ack)), acts, k)
      && Run(s, [Acknowledge(ack)] + acts).books.repushed[k] == s.books.repushed[k] + ChecksOf(s.books.chains, k)
  {
    var n := |s.books.chains|;
    RunFirst(s, Acknowledge(ack), LatePushes(n));
    PushesRun(Step(s, Acknowledge(ack)), k);
  }
}
