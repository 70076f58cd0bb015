/**
 * Exactly when a recipient is forgotten. `Covered` is what the delivery layer promises; a failed offline-box
 * write and a crash are the only ways to lose it, and `lost` records exactly those.
 */
module DeliveryLoss {
  import opened Delivery
  import opened DeliverySafety

  // ---- What is written to `lost`, step by step and over runs ----

  /** The step fails to write k to the offline box, or kills the process while only its memory knew of k. */
  ghost predicate Loses(s: State, a: Action, k: Key) {
    || (Handles(s, a, k) && !a.delivered && !a.stored)
    || (a.BoxReturns? && !a.stored && a.chain < |s.books.chains|
          && s.books.chains[a.chain].phase == Boxing && s.books.chains[a.chain].key == k)
    || (a.Crash? && (k in s.books.pending || BeingBoxed(s.books, k)))
  }

  lemma StepLoses(s: State, a: Action, k: Key)
    requires Chained(s.books)
    ensures k in Step(s, a).books.lost <==> k in s.books.lost || Loses(s, a, k)
  {
    if a.Crash? { ForgetFollows(s.books); }
  }

  lemma RunSnoc(s: State, acts: seq<Action>)
    requires acts != []
    ensures var n := |acts| - 1; Run(s, acts) == Step(Run(s, acts[..n]), acts[n])
  {
    var init, last := acts[..|acts| - 1], acts[|acts| - 1];
    assert acts == init + [last];
    RunThen(s, init, last);
  }

  ghost predicate LostAt(acts: seq<Action>, i: nat, k: Key) {
    i < |acts| && Loses(Run(START, acts[..i]), acts[i], k)
  }

  lemma LostAtInit(acts: seq<Action>, i: nat, k: Key)
    requires i + 1 < |acts|
    ensures LostAt(acts, i, k) <==> LostAt(acts[..|acts| - 1], i, k)
  {
    assert acts[..|acts| - 1][..i] == acts[..i];
  }

  ghost predicate LostDuring(acts: seq<Action>, k: Key) {
    exists i: nat :: LostAt(acts, i, k)
  }

  lemma LostDuringSnoc(acts: seq<Action>, k: Key)
    requires acts != []
    ensures var n := |acts| - 1;
      LostDuring(acts, k) <==> LostDuring(acts[..n], k) || Loses(Run(START, acts[..n]), acts[n], k)
  {
    var n := |acts| - 1;
    if i: nat :| LostAt(acts, i, k) {
      if i < n { LostAtInit(acts, i, k); }
    }
    if i: nat :| LostAt(acts[..n], i, k) {
      LostAtInit(acts, i, k);
      assert LostAt(acts, i, k);
    }
    if Loses(Run(START, acts[..n]), acts[n], k) { assert LostAt(acts, n, k); }
  }

  /** A key is in `lost` exactly if some step of the run lost it. */
  lemma {:induction false} LostIff(acts: seq<Action>, k: Key)
    ensures k in Run(START, acts).books.lost <==> LostDuring(acts, k)
    decreases |acts|
  {
    if acts == [] {
    } else {
      var n := |acts| - 1;
      RunSnoc(START, acts);
      RunKeeps(START, acts[..n]);
      StepLoses(Run(START, acts[..n]), acts[n], k);
      LostDuringSnoc(acts, k);
      LostIff(acts[..n], k);
    }
  }

  // ---- What covers a recipient, and what uncovers it ----

  /** After its turn in the fan-out a recipient is covered exactly if the push or the box write worked, or already. */
  lemma HandledIsCovered(s: State, a: Action, k: Key)
    requires Chained(s.books) && Handles(s, a, k)
    ensures Covered(Step(s, a).books, k) <==> a.delivered || a.stored || Covered(s.books, k)
  {
    var b, c := s.books, Step(s, a).books;
    if a.delivered {
      RegisterFollows(b, k);
      if k !in b.pending { assert Live(c, |b.chains|, k); }
    } else {
      SameChains(b, c);
    }
  }

  /** An acknowledgement or a box row survives everything. */
  ghost predicate Durable(b: Books, k: Key) {
    Acked(b, k) || k in b.box
  }

  predicate Boxes(b: Books, i: nat, k: Key) {
    i < |b.chains| && b.chains[i] == Chain(k, RETRY_LEVELS, Boxing)
  }

  /** The step takes away the only thing that covers k. */
  ghost predicate Uncovers(s: State, a: Action, k: Key) {
    !Durable(s.books, k) &&
    (a.Crash? ||
     (a.BoxReturns? && !a.stored && Boxes(s.books, a.chain, k) && k !in s.books.pending
        && forall i: nat | i != a.chain :: !Boxes(s.books, i, k)))
  }

  lemma CoveredStays(b: Books, c: Books, k: Key)
    requires Chained(b) && Follows(b, c) && c.lost == b.lost && k !in b.lost
    ensures Covered(b, k) ==> Covered(c, k)
  {
    assert Covered(b, k) ==> Safe(b, k);
  }

  /** `lost` plays no part in any step: without it the same steps cover the same keys. */
  function Unlost(b: Books): Books {
    b.(lost := {})
  }

  lemma UnlostCovers(b: Books, k: Key)
    ensures Covered(Unlost(b), k) <==> Covered(b, k)
    ensures Chained(Unlost(b)) <==> Chained(b)
  {
    SameChains(b, Unlost(b));
  }

  lemma BoxesIff(b: Books, k: Key)
    ensures BeingBoxed(b, k) <==> exists j: nat :: Boxes(b, j, k)
  {
    if j: nat :| j < |b.chains| && b.chains[j] == Chain(k, RETRY_LEVELS, Boxing) { assert Boxes(b, j, k); }
    if j: nat :| Boxes(b, j, k) { assert j < |b.chains| && b.chains[j] == Chain(k, RETRY_LEVELS, Boxing); }
  }

  lemma BoxFailureUncovers(b: Books, i: nat, k: Key)
    requires Chained(b) && i < |b.chains| && b.chains[i].phase == Boxing && Covered(b, k)
    ensures Covered(BoxTimeout(b, i, false), k) <==>
      Durable(b, k) || k in b.pending || b.chains[i].key != k || exists j: nat :: j != i && Boxes(b, j, k)
  {
    var c := BoxTimeout(b, i, false);
    forall j: nat ensures Boxes(c, j, k) <==> j != i && Boxes(b, j, k) {
    }
    forall j: nat ensures Live(c, j, k) <==> Live(b, j, k) {
    }
    BoxesIff(b, k);
    BoxesIff(c, k);
  }

  lemma CrashUncovers(b: Books, k: Key)
    ensures Covered(Forget(b), k) <==> Durable(b, k)
  {
  }

  /** What a step does to the books. */
  function BooksAfter(s: State, a: Action): Books {
    match a
    case Member(fan, delivered, stored) =>
      if fan < |s.fans| && s.fans[fan].phase == Running && s.fans[fan].next < |s.fans[fan].members| then
        Handle(s.books, s.fans[fan].event, s.fans[fan].members[s.fans[fan].next], delivered, stored)
      else s.books
    case TimerFires(i) => Fire(s.books, i)
    case PushStarts(i) => Repush(s.books, i)
    case PushReturns(i) => AfterPush(s.books, i)
    case BoxReturns(i, stored) => BoxTimeout(s.books, i, stored)
    case Acknowledge(ack) => Ack(s.books, ack)
    case Crash(_) => Forget(s.books)
    case _ => s.books
  }

  lemma StepBooks(s: State, a: Action)
    ensures Step(s, a).books == BooksAfter(s, a)
  {
  }

  lemma FireStays(b: Books, i: nat, k: Key)
    requires Chained(b) && Covered(b, k)
    ensures Covered(Fire(b, i), k)
  {
    UnlostCovers(b, k);
    FireFollows(Unlost(b), i);
    CoveredStays(Unlost(b), Fire(Unlost(b), i), k);
    assert Unlost(Fire(b, i)) == Fire(Unlost(b), i);
    UnlostCovers(Fire(b, i), k);
  }

  lemma RepushStays(b: Books, i: nat, k: Key)
    requires Chained(b) && Covered(b, k)
    ensures Covered(Repush(b, i), k)
  {
    UnlostCovers(b, k);
    RepushFollows(Unlost(b), i);
    CoveredStays(Unlost(b), Repush(Unlost(b), i), k);
    assert Unlost(Repush(b, i)) == Repush(Unlost(b), i);
    UnlostCovers(Repush(b, i), k);
  }

  lemma AfterPushStays(b: Books, i: nat, k: Key)
    requires Chained(b) && Covered(b, k)
    ensures Covered(AfterPush(b, i), k)
  {
    UnlostCovers(b, k);
    AfterPushFollows(Unlost(b), i);
    CoveredStays(Unlost(b), AfterPush(Unlost(b), i), k);
    assert Unlost(AfterPush(b, i)) == AfterPush(Unlost(b), i);
    UnlostCovers(AfterPush(b, i), k);
  }

  lemma BoxedStays(b: Books, i: nat, k: Key)
    requires Chained(b) && Covered(b, k)
    ensures Covered(BoxTimeout(b, i, true), k)
  {
    UnlostCovers(b, k);
    BoxTimeoutFollows(Unlost(b), i, true);
    CoveredStays(Unlost(b), BoxTimeout(Unlost(b), i, true), k);
    assert Unlost(BoxTimeout(b, i, true)) == BoxTimeout(Unlost(b), i, true);
    UnlostCovers(BoxTimeout(b, i, true), k);
  }

  lemma AckStays(b: Books, ack: (int, int, int), k: Key)
    requires Chained(b) && Covered(b, k)
    ensures Covered(Ack(b, ack), k)
  {
    UnlostCovers(b, k);
    AckFollows(Unlost(b), ack);
    CoveredStays(Unlost(b), Ack(Unlost(b), ack), k);
    UnlostCovers(Ack(b, ack), k);
  }

  lemma MemberStays(b: Books, e: PushEvent, uid: int, delivered: bool, stored: bool, k: Key)
    requires Chained(b) && Covered(b, k)
    ensures Covered(Handle(b, e, uid, delivered, stored), k)
  {
    var c := Unlost(b);
    UnlostCovers(b, k);
    RegisterFollows(c, KeyOf(e, uid));
    CoveredStays(c, Register(c, KeyOf(e, uid)), k);
    UnlostCovers(Register(b, KeyOf(e, uid)), k);
    SameChains(b, WriteBox(b, KeyOf(e, uid), stored));
  }

  /** A step that neither crashes nor fails to box keeps what is covered. */
  lemma OthersKeep(s: State, a: Action, k: Key)
    requires Chained(s.books) && Covered(s.books, k)
    requires !a.Crash? && !(a.BoxReturns? && !a.stored)
    ensures Covered(BooksAfter(s, a), k)
  {
    match a
    case Member(fan, delivered, stored) =>
      if fan < |s.fans| && s.fans[fan].phase == Running && s.fans[fan].next < |s.fans[fan].members| {
        MemberStays(s.books, s.fans[fan].event, s.fans[fan].members[s.fans[fan].next], delivered, stored, k);
      }
    case TimerFires(i) => FireStays(s.books, i, k);
    case PushStarts(i) => RepushStays(s.books, i, k);
    case PushReturns(i) => AfterPushStays(s.books, i, k);
    case BoxReturns(i, _) => BoxedStays(s.books, i, k);
    case Acknowledge(ack) => AckStays(s.books, ack, k);
    case _ =>
  }

  /** A covered key stops being covered exactly in a step that takes away its only cover. */
  lemma UncoveredIff(s: State, a: Action, k: Key)
    requires Chained(s.books) && Covered(s.books, k)
    ensures !Covered(Step(s, a).books, k) <==> Uncovers(s, a, k)
  {
    StepBooks(s, a);
    if a.Crash? {
      CrashUncovers(s.books, k);
    } else if a.BoxReturns? && !a.stored {
      if a.chain < |s.books.chains| && s.books.chains[a.chain].phase == Boxing {
        BoxFailureUncovers(s.books, a.chain, k);
        assert s.books.chains[a.chain].level == RETRY_LEVELS;
      }
    } else {
      OthersKeep(s, a, k);
    }
  }

  // ---- Fault-free runs ----

  ghost predicate AllCovered(s: State, f: nat) {
    f < |s.fans| && forall j | 0 <= j < |s.fans[f].members| :: s.fans[f].members[j] != s.fans[f].event.fromUid ==>
      Covered(s.books, KeyOf(s.fans[f].event, s.fans[f].members[j]))
  }

  /**
   * While every offline-box write succeeds and the process stays up, each committed message is still open for
   * the scan, or a whole fan-out of it has every non-sender covered.
   */
  lemma NobodyForgottenWithoutFaults(acts: seq<Action>, r: RowKey)
    requires r in Run(START, acts).rows && forall i | 0 <= i < |acts| :: Faultless(acts[i])
    ensures var s := Run(START, acts);
      (r in s.status && s.status[r] == 0) ||
      exists f: nat :: Served(s, r, f) && AllCovered(s, f) && Genuine(s, s.fans[f].event)
  {
    NobodyForgotten(acts, r);
    NothingLost(START, acts);
    var s := Run(START, acts);
    if !(r in s.status && s.status[r] == 0) {
      var f: nat :| Served(s, r, f) && AllServed(s, f) && Genuine(s, s.fans[f].event);
      assert AllCovered(s, f);
    }
  }

  /** In any run, whoever a complete fan-out handled is covered unless some step of the run lost him. */
  lemma UncoveredWasLost(acts: seq<Action>, f: nat, j: nat)
    requires var s := Run(START, acts); f < |s.fans| && j < s.fans[f].next <= |s.fans[f].members|
    requires var s := Run(START, acts); s.fans[f].members[j] != s.fans[f].event.fromUid
    ensures var s := Run(START, acts);
      var k := KeyOf(s.fans[f].event, s.fans[f].members[j]);
      Covered(s.books, k) || LostDuring(acts, k)
  {
    RunKeeps(START, acts);
    var s := Run(START, acts);
    var k := KeyOf(s.fans[f].event, s.fans[f].members[j]);
    assert Safe(s.books, k);
    LostIff(acts, k);
  }
}
