/**
 * The number stack when the calls to the service do not overlap and each row has one allocator
 * (SeqAllocator): then every process hands out strictly increasing numbers. With two allocators on a row it
 * need not: `TwoAllocatorsGoBack`.
 */
module NumberOrder {
  import opened Common
  import opened Prefetch
  import A = SeqAllocator

  /** `service` maps a key to its row with the one allocator on it. */
  datatype Stack = Stack(service: map<Key, A.Seq>, system: System)

  datatype Event =
    | Open(key: Key, step: int)                       // Pool.For, or the service again: a new allocator on the row
    | Serve(key: Key, op: A.Op)                       // another client's call, a prefetch, a raise of the row
    | AskMsg(p: nat, loads: bool, arrives: bool)      // `arrives`: the answer is not lost
    | AskConv(p: nat, conv: int, loads: bool, arrives: bool)
    | StartProcess(p: nat)

  /** The row after a call for n numbers, and what the caller gets. */
  function Called(q: A.Seq, n: int, loads: bool, arrives: bool): (A.Seq, Option<int>) {
    var (t, r) := A.NextOf(q, n, loads);
    (t, if r.Taken? && arrives then Some(r.start) else None)
  }

  function Next(s: Stack, e: Event): Stack {
    match e
    case Open(key, step) =>
      if step <= 0 then s
      else s.(service := s.service[key := A.New(if key in s.service then s.service[key].maxId else 0, step)])
    case Serve(key, op) =>
      if key in s.service then s.(service := s.service[key := A.Step(s.service[key], op).0]) else s
    case AskMsg(p, loads, arrives) =>
      if p !in s.system.procs then s
      else if !MsgNeedsRefill(s.system.procs[p].msg) || Msg !in s.service then
        s.(system := TakeMsg(s.system, p, None))
      else
        var (q, a) := Called(s.service[Msg], MSG_ID_STEP, loads, arrives);
        Stack(s.service[Msg := q], TakeMsg(s.system, p, a))
    case AskConv(p, conv, loads, arrives) =>
      if p !in s.system.procs then s
      else if !ConvNeedsRefill(s.system.procs[p].convs, conv) || Conv(conv) !in s.service then
        s.(system := TakeConv(s.system, p, conv, None))
      else
        var (q, a) := Called(s.service[Conv(conv)], CONV_SEQ_STEP, loads, arrives);
        Stack(s.service[Conv(conv) := q], TakeConv(s.system, p, conv, a))
    case StartProcess(p) => s.(system := s.system.(procs := s.system.procs[p := EMPTY]))
  }

  function Runs(s: Stack, events: seq<Event>): Stack
    decreases |events|
  {
    if events == [] then s else Runs(Next(s, events[0]), events[1..])
  }

  const NOTHING := Stack(map[], START)

  /** A call that loads, if it must, and whose answer arrives: the next 512 numbers of the row, the first handed out. */
  lemma AskMsgServed(s: Stack, p: nat)
    requires p in s.system.procs && Msg in s.service && A.Good(s.service[Msg]) && s.service[Msg].step >= 512
    requires s.system.procs[p].msg.cur == 0
    ensures var t, r := Next(s, AskMsg(p, true, true)), A.NextOf(s.service[Msg], 512, true);
      && r.1.Taken? && t.service == s.service[Msg := r.0]
      && t.system.handed == s.system.handed + [Handed(p, Msg, r.1.start)]
  {
    MsgHandsOut(s.system, p, Some(A.NextOf(s.service[Msg], 512, true).1.start));
  }

  lemma AskConvServed(s: Stack, p: nat, conv: int)
    requires p in s.system.procs && Conv(conv) in s.service && A.Good(s.service[Conv(conv)])
    requires s.service[Conv(conv)].step >= 64 && conv !in s.system.procs[p].convs
    ensures var t, r := Next(s, AskConv(p, conv, true, true)), A.NextOf(s.service[Conv(conv)], 64, true);
      && r.1.Taken? && t.service == s.service[Conv(conv) := r.0]
      && t.system.handed == s.system.handed + [Handed(p, Conv(conv), r.1.start)]
  {
    ConvHandsOut(s.system, p, conv, Some(A.NextOf(s.service[Conv(conv)], 64, true).1.start));
  }

  /** An allocator is opened above everything its row has given; other calls are steps of the allocator. */
  lemma ServiceMoves(s: Stack, key: Key, step: int, op: A.Op)
    ensures step > 0 && key in s.service ==>
              Next(s, Open(key, step)).service == s.service[key := A.New(s.service[key].maxId, step)]
    ensures step > 0 && key !in s.service ==> Next(s, Open(key, step)).service == s.service[key := A.New(0, step)]
    ensures key in s.service ==> Next(s, Serve(key, op)).service == s.service[key := A.Step(s.service[key], op).0]
  {
  }

  // ---- The invariant ----

  /** Everything given for a key lies at or below the largest number its allocator has issued. */
  ghost predicate BelowLast(s: Stack) {
    forall j | 0 <= j < |s.system.issues| ::
      s.system.issues[j].key in s.service
        && s.system.issues[j].start + s.system.issues[j].n - 1 <= s.service[s.system.issues[j].key].last
  }

  ghost predicate StackInv(s: Stack) {
    && (forall key | key in s.service :: A.Good(s.service[key]) && s.service[key].last >= 0)
    && BelowLast(s) && Ordered(s.system)
  }

  /** A row whose allocator moved on, or was replaced, and a system that recorded at most its answer. */
  lemma RowMoves(s: Stack, t: Stack, key: Key, q: A.Seq)
    requires StackInv(s) && t.service == s.service[key := q] && A.Good(q) && q.last >= 0
    requires key in s.service ==> q.last >= s.service[key].last
    requires Ordered(t.system) && s.system.issues <= t.system.issues
    requires forall j | |s.system.issues| <= j < |t.system.issues| ::
      t.system.issues[j].key == key && t.system.issues[j].start + t.system.issues[j].n - 1 <= q.last
    ensures StackInv(t)
  {
    forall j | 0 <= j < |t.system.issues|
      ensures t.system.issues[j].key in t.service
        && t.system.issues[j].start + t.system.issues[j].n - 1 <= t.service[t.system.issues[j].key].last
    {
      if j < |s.system.issues| { assert t.system.issues[j] == s.system.issues[j]; }
    }
  }

  /** The answer of a call lies above everything given for its key, and becomes the largest number issued. */
  lemma CalledRises(s: Stack, key: Key, n: int, loads: bool, arrives: bool)
    requires StackInv(s) && key in s.service && n > 0
    ensures var (q, a) := Called(s.service[key], n, loads, arrives);
      && A.Good(q) && q.last >= s.service[key].last
      && (a.Some? ==> Above(s.system, key, a.value) && Fresh(s.system, key, a.value, n) && a.value + n - 1 <= q.last)
  {
    var row := s.service[key];
    A.StepIncreases(row, A.CallNext(n, loads));
    var (q, a) := Called(row, n, loads, arrives);
    if a.Some? {
      forall x | Issued(s.system, key, x) ensures x <= row.last {
        var j :| 0 <= j < |s.system.issues| && Covers(s.system.issues[j], key, x);
      }
    }
  }

  lemma AskMsgKeeps(s: Stack, p: nat, loads: bool, arrives: bool)
    requires StackInv(s) && p in s.system.procs
    ensures StackInv(Next(s, AskMsg(p, loads, arrives)))
  {
    var t := Next(s, AskMsg(p, loads, arrives));
    if !MsgNeedsRefill(s.system.procs[p].msg) || Msg !in s.service {
      StepRises(s.system, AllocMsg(p, None));
    } else {
      var (q, a) := Called(s.service[Msg], MSG_ID_STEP, loads, arrives);
      CalledRises(s, Msg, MSG_ID_STEP, loads, arrives);
      assert Answer(s.system, Msg, a, MSG_ID_STEP) == a;
      StepRises(s.system, AllocMsg(p, a));
      RowMoves(s, t, Msg, q);
    }
  }

  lemma AskConvKeeps(s: Stack, p: nat, conv: int, loads: bool, arrives: bool)
    requires StackInv(s) && p in s.system.procs
    ensures StackInv(Next(s, AskConv(p, conv, loads, arrives)))
  {
    var t := Next(s, AskConv(p, conv, loads, arrives));
    if !ConvNeedsRefill(s.system.procs[p].convs, conv) || Conv(conv) !in s.service {
      StepRises(s.system, AllocConv(p, conv, None));
    } else {
      var (q, a) := Called(s.service[Conv(conv)], CONV_SEQ_STEP, loads, arrives);
      CalledRises(s, Conv(conv), CONV_SEQ_STEP, loads, arrives);
      assert Answer(s.system, Conv(conv), a, CONV_SEQ_STEP) == a;
      StepRises(s.system, AllocConv(p, conv, a));
      RowMoves(s, t, Conv(conv), q);
    }
  }

  lemma ServiceKeeps(s: Stack, e: Event)
    requires StackInv(s) && (e.Open? || e.Serve?)
    ensures StackInv(Next(s, e))
  {
    var t := Next(s, e);
    if e.Serve? {
      if e.key in s.service {
        A.StepIncreases(s.service[e.key], e.op);
        RowMoves(s, t, e.key, A.Step(s.service[e.key], e.op).0);
      }
    } else if e.step > 0 {
      RowMoves(s, t, e.key, A.New(if e.key in s.service then s.service[e.key].maxId else 0, e.step));
    }
  }

  lemma {:induction false} RunsKeep(s: Stack, events: seq<Event>)
    requires StackInv(s)
    ensures StackInv(Runs(s, events))
    decreases |events|
  {
    if events == [] {
    } else {
      match events[0] {
        case AskMsg(p, loads, arrives) => if p in s.system.procs { AskMsgKeeps(s, p, loads, arrives); }
        case AskConv(p, conv, loads, arrives) => if p in s.system.procs { AskConvKeeps(s, p, conv, loads, arrives); }
        case StartProcess(p) => StepRises(s.system, Restart(p));
        case _ => ServiceKeeps(s, events[0]);
      }
      RunsKeep(Next(s, events[0]), events[1..]);
    }
  }

  /**
   * End to end, with one allocator per row and calls that do not overlap: each process hands out strictly
   * increasing msg_ids, and strictly increasing seqs per conversation, whatever answers are lost and whenever
   * the processes or the service start again.
   */
  lemma RisesEndToEnd(events: seq<Event>, i: nat, j: nat)
    requires i < j < |Runs(NOTHING, events).system.handed|
    ensures var h := Runs(NOTHING, events).system.handed;
            h[i].proc == h[j].proc && h[i].key == h[j].key ==> h[i].value < h[j].value
  {
    RunsKeep(NOTHING, events);
  }

  /**
   * Two allocators on one row: a loads 1..step, b loads the next segment and is called first. The calls do not
   * overlap, and still the second one returns the smaller number.
   */
  lemma TwoAllocatorsGoBack(step: int)
    requires step > 0
    ensures var a := A.New(0, step);
      var b := A.New(a.maxId, step);
      A.NextOf(b, 1, true).1 == A.Taken(step + 1) && A.NextOf(a.(maxId := b.maxId), 1, true).1 == A.Taken(1)
  {
  }
}
