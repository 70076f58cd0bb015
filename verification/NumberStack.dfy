/**
 * The whole number stack: prefetching processes (Prefetch) on a seq service whose allocators run under every
 * interleaving (SeqProtocol), one row per key. The answer of a call is a range that some `Next` of the service
 * issued and that no other call has received; it may also be lost.
 */
module NumberStack {
  import opened Common
  import opened Prefetch
  import Q = SeqProtocol

  /** `service` has one seq_segment row per key; `given` names the issued ranges that calls have received. */
  datatype Stack = Stack(service: map<Key, Q.State>, given: set<(Key, nat)>, system: System)

  datatype Event =
    | Serve(key: Key, act: Q.Action)   // one shared access inside the service, or a raise of the row
    | AskMsg(p: nat, reply: Option<nat>)
    | AskConv(p: nat, conv: int, reply: Option<nat>)
    | StartProcess(p: nat)

  /** The start of range `reply`, if the service has issued it for this key and size and nobody has received it. */
  function Answered(s: Stack, key: Key, n: int, reply: Option<nat>): Option<int> {
    if reply.Some? && key in s.service && reply.value < |s.service[key].issued| && (key, reply.value) !in s.given
       && s.service[key].issued[reply.value].n == n
    then Some(s.service[key].issued[reply.value].start) else None
  }

  function Receive(s: Stack, key: Key, reply: Option<nat>, a: Option<int>): set<(Key, nat)> {
    if a.Some? && reply.Some? then s.given + {(key, reply.value)} else s.given
  }

  function Next(s: Stack, e: Event): Stack {
    match e
    case Serve(key, act) =>
      if key in s.service then s.(service := s.service[key := Q.Step(s.service[key], act)]) else s
    case AskMsg(p, reply) =>
      if p !in s.system.procs then s
      else
        var a := if MsgNeedsRefill(s.system.procs[p].msg) then Answered(s, Msg, MSG_ID_STEP, reply) else None;
        s.(given := Receive(s, Msg, reply, a), system := TakeMsg(s.system, p, a))
    case AskConv(p, conv, reply) =>
      if p !in s.system.procs then s
      else
        var a := if ConvNeedsRefill(s.system.procs[p].convs, conv)
                 then Answered(s, Conv(conv), CONV_SEQ_STEP, reply) else None;
        s.(given := Receive(s, Conv(conv), reply, a), system := TakeConv(s.system, p, conv, a))
    case StartProcess(p) => s.(system := s.system.(procs := s.system.procs[p := EMPTY]))
  }

  function Runs(s: Stack, events: seq<Event>): Stack
    decreases |events|
  {
    if events == [] then s else Runs(Next(s, events[0]), events[1..])
  }

  ghost predicate Fresh0(s: Stack) {
    s.given == {} && s.system == START && forall key | key in s.service :: Q.Init(s.service[key])
  }

  /** A range of 512 that the service has issued and nobody has received reaches a process that asks. */
  lemma AskMsgServed(s: Stack, p: nat, i: nat)
    requires p in s.system.procs && Msg in s.service && i < |s.service[Msg].issued| && (Msg, i) !in s.given
    requires s.service[Msg].issued[i].n == 512 && s.system.procs[p].msg.cur == 0
    ensures var t, start := Next(s, AskMsg(p, Some(i))), s.service[Msg].issued[i].start;
      && t.service == s.service && t.given == s.given + {(Msg, i)}
      && t.system.handed == s.system.handed + [Handed(p, Msg, start)]
      && t.system.issues == s.system.issues + [Issue(Msg, start, 512)]
  {
    MsgHandsOut(s.system, p, Some(s.service[Msg].issued[i].start));
  }

  /** The same for the seqs of a conversation, in ranges of 64. */
  lemma AskConvServed(s: Stack, p: nat, conv: int, i: nat)
    requires p in s.system.procs && Conv(conv) in s.service && i < |s.service[Conv(conv)].issued|
    requires (Conv(conv), i) !in s.given && s.service[Conv(conv)].issued[i].n == 64
    requires conv !in s.system.procs[p].convs
    ensures var t, start := Next(s, AskConv(p, conv, Some(i))), s.service[Conv(conv)].issued[i].start;
      && t.service == s.service && t.given == s.given + {(Conv(conv), i)}
      && t.system.handed == s.system.handed + [Handed(p, Conv(conv), start)]
      && t.system.issues == s.system.issues + [Issue(Conv(conv), start, 64)]
  {
    ConvHandsOut(s.system, p, conv, Some(s.service[Conv(conv)].issued[i].start));
  }

  /** An access inside the service is one of its steps; a process starts empty. */
  lemma OthersMove(s: Stack, key: Key, act: Q.Action, p: nat)
    ensures key in s.service ==>
              Next(s, Serve(key, act)) == s.(service := s.service[key := Q.Step(s.service[key], act)])
    ensures Next(s, StartProcess(p)).system.procs == s.system.procs[p := Proc(Block(0, 0), map[])]
  {
  }

  // ---- The invariant ----

  /** Recorded answer `x` is range i of its key's row, and that range counts as received. */
  predicate Mirrors(s: Stack, x: Issue, i: nat) {
    && x.key in s.service && i < |s.service[x.key].issued| && (x.key, i) in s.given
    && s.service[x.key].issued[i].start == x.start && s.service[x.key].issued[i].n == x.n
  }

  ghost predicate Mirrored(s: Stack, x: Issue) {
    exists i: nat :: Mirrors(s, x, i)
  }

  ghost predicate StackInv(s: Stack) {
    && (forall key | key in s.service :: Q.Inv(s.service[key]))
    && (forall j | 0 <= j < |s.system.issues| :: Mirrored(s, s.system.issues[j]))
    && Inv(s.system)
  }

  /** A step of the service appends to the issued ranges. */
  lemma IssuedGrows(s: Q.State, act: Q.Action)
    ensures s.issued <= Q.Step(s, act).issued
  {
  }

  /** A number of a range that nobody has received is in no recorded answer. */
  lemma OtherRange(s: Stack, key: Key, i: nat, j: nat, x: int)
    requires StackInv(s) && key in s.service && i < |s.service[key].issued| && (key, i) !in s.given
    requires j < |s.system.issues|
    ensures !(Covers(s.system.issues[j], key, x) && Q.InRange(x, s.service[key].issued[i]))
  {
    if s.system.issues[j].key == key {
      assert Mirrored(s, s.system.issues[j]);
      var k: nat :| Mirrors(s, s.system.issues[j], k);
      var issued := s.service[key].issued;
      assert k < i ==> Q.Apart(issued[k], issued[i]);
      assert i < k ==> Q.Apart(issued[i], issued[k]);
    }
  }

  /** What the service answers has never been given before: the prefetchers' condition holds of itself. */
  lemma AnswerIsFresh(s: Stack, key: Key, n: int, reply: Option<nat>)
    requires StackInv(s) && Answered(s, key, n, reply).Some?
    ensures Fresh(s.system, key, Answered(s, key, n, reply).value, n)
  {
    var q, i := s.service[key], reply.value;
    var r := q.issued[i];
    assert Q.Inside(r, q.segs) && Q.SegmentOk(q.segs[r.seg], q.maxId);
    forall x, j | r.start <= x < r.start + n && 0 <= j < |s.system.issues| ensures !Covers(s.system.issues[j], key, x) {
      OtherRange(s, key, i, j, x);
    }
  }

  /** Receiving an answer keeps the mirror, with the new range in it. */
  lemma MirrorKept(s: Stack, t: Stack, key: Key, n: int, reply: Option<nat>, a: Option<int>)
    requires StackInv(s) && t.service == s.service && t.given == Receive(s, key, reply, a)
    requires a.None? || a == Answered(s, key, n, reply)
    requires t.system.issues == if a.Some? then s.system.issues + [Issue(key, a.value, n)] else s.system.issues
    ensures forall j | 0 <= j < |t.system.issues| :: Mirrored(t, t.system.issues[j])
  {
    forall j | 0 <= j < |t.system.issues| ensures Mirrored(t, t.system.issues[j]) {
      if j < |s.system.issues| {
        var i: nat :| Mirrors(s, s.system.issues[j], i);
        assert Mirrors(t, t.system.issues[j], i);
      } else {
        assert Mirrors(t, t.system.issues[j], reply.value);
      }
    }
  }

  lemma ServeKeeps(s: Stack, key: Key, act: Q.Action)
    requires StackInv(s) && key in s.service
    ensures StackInv(Next(s, Serve(key, act)))
  {
    var t := Next(s, Serve(key, act));
    Q.StepKeeps(s.service[key], act);
    IssuedGrows(s.service[key], act);
    forall j | 0 <= j < |t.system.issues| ensures Mirrored(t, t.system.issues[j]) {
      var i: nat :| Mirrors(s, s.system.issues[j], i);
      assert Mirrors(t, t.system.issues[j], i);
    }
  }

  lemma AskMsgKeeps(s: Stack, p: nat, reply: Option<nat>)
    requires StackInv(s) && p in s.system.procs
    ensures StackInv(Next(s, AskMsg(p, reply)))
  {
    var a := if MsgNeedsRefill(s.system.procs[p].msg) then Answered(s, Msg, MSG_ID_STEP, reply) else None;
    if a.Some? { AnswerIsFresh(s, Msg, MSG_ID_STEP, reply); }
    assert Answer(s.system, Msg, a, MSG_ID_STEP) == a;
    StepKeeps(s.system, AllocMsg(p, a));
    MirrorKept(s, Next(s, AskMsg(p, reply)), Msg, MSG_ID_STEP, reply, a);
  }

  lemma AskConvKeeps(s: Stack, p: nat, conv: int, reply: Option<nat>)
    requires StackInv(s) && p in s.system.procs
    ensures StackInv(Next(s, AskConv(p, conv, reply)))
  {
    var a := if ConvNeedsRefill(s.system.procs[p].convs, conv)
             then Answered(s, Conv(conv), CONV_SEQ_STEP, reply) else None;
    if a.Some? { AnswerIsFresh(s, Conv(conv), CONV_SEQ_STEP, reply); }
    assert Answer(s.system, Conv(conv), a, CONV_SEQ_STEP) == a;
    StepKeeps(s.system, AllocConv(p, conv, a));
    MirrorKept(s, Next(s, AskConv(p, conv, reply)), Conv(conv), CONV_SEQ_STEP, reply, a);
  }

  lemma StartKeeps(s: Stack, p: nat)
    requires StackInv(s)
    ensures StackInv(Next(s, StartProcess(p)))
  {
    var t := Next(s, StartProcess(p));
    StepKeeps(s.system, Restart(p));
    forall j | 0 <= j < |t.system.issues| ensures Mirrored(t, t.system.issues[j]) {
      var i: nat :| Mirrors(s, s.system.issues[j], i);
      assert Mirrors(t, t.system.issues[j], i);
    }
  }

  lemma {:induction false} RunsKeep(s: Stack, events: seq<Event>)
    requires StackInv(s)
    ensures StackInv(Runs(s, events))
    decreases |events|
  {
    if events == [] {
    } else {
      match events[0] {
        case Serve(key, act) => if key in s.service { ServeKeeps(s, key, act); }
        case AskMsg(p, reply) => if p in s.system.procs { AskMsgKeeps(s, p, reply); }
        case AskConv(p, conv, reply) => if p in s.system.procs { AskConvKeeps(s, p, conv, reply); }
        case StartProcess(p) => StartKeeps(s, p);
      }
      RunsKeep(Next(s, events[0]), events[1..]);
    }
  }

  /**
   * End to end, with no assumption on the service: whatever threads race inside it, however its rows are raised
   * from outside, whatever answers are lost, and whenever processes start again, no process of the deployment
   * hands out a msg_id or a (conversation, seq) that has been handed out before.
   */
  lemma NeverTwiceEndToEnd(s: Stack, events: seq<Event>, i: nat, j: nat)
    requires Fresh0(s) && i < j < |Runs(s, events).system.handed|
    ensures var h := Runs(s, events).system.handed;
            && h[i].value >= 1 && (h[i].key == h[j].key ==> h[i].value != h[j].value)
  {
    forall key | key in s.service ensures Q.Inv(s.service[key]) { Q.InitInv(s.service[key]); }
    RunsKeep(s, events);
  }
}
