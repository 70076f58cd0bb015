/**
 * The in-process prefetchers on top of the seq service (internal/message/service.go, msgIDAlloc and
 * convSeqAlloc): msg ids in blocks of 512, conversation seqs in blocks of 64. Any number of processes share
 * the service. Here its answers are parameters and what is needed of them is a condition; NumberStack and
 * NumberOrder put the prefetchers on the allocators of SeqProtocol and SeqAllocator and discharge it.
 */
module Prefetch {
  import opened Common

  const MSG_ID_STEP := 512
  const CONV_SEQ_STEP := 64
  const CONV_SEQ_MAP_HIGH := 4096

  /** cur .. last is the rest of a block. */
  datatype Block = Block(cur: int, last: int)

  type Segments = map<int, Block>

  // ---- The two prefetchers ----

  /** msgIDAlloc: cur == 0 means "never loaded". */
  predicate MsgNeedsRefill(b: Block) {
    b.cur == 0 || b.cur > b.last
  }

  function MsgAlloc(b: Block, answer: Option<int>): (Block, Option<int>) {
    if !MsgNeedsRefill(b) then (b.(cur := b.cur + 1), Some(b.cur))
    else if answer.None? then (b, None)
    else (Block(answer.value + 1, answer.value + MSG_ID_STEP - 1), Some(answer.value))
  }

  predicate ConvNeedsRefill(m: Segments, conv: int) {
    conv !in m || m[conv].cur > m[conv].last
  }

  /** A full map is thrown away as a whole before a refill. */
  function Trimmed(m: Segments): Segments {
    if |m| >= CONV_SEQ_MAP_HIGH then map[] else m
  }

  function ConvAlloc(m: Segments, conv: int, answer: Option<int>): (Segments, Option<int>) {
    if !ConvNeedsRefill(m, conv) then (m[conv := m[conv].(cur := m[conv].cur + 1)], Some(m[conv].cur))
    else if answer.None? then (Trimmed(m), None)
    else (Trimmed(m)[conv := Block(answer.value + 1, answer.value + CONV_SEQ_STEP - 1)], Some(answer.value))
  }

  // ---- How long one answer lasts ----

  /** n calls while the service does not answer. */
  function MsgCalls(b: Block, n: nat): Block {
    if n == 0 then b else MsgAlloc(MsgCalls(b, n - 1), None).0
  }

  lemma {:induction false} MsgBlockAfter(b: Block, start: int, n: nat)
    requires MsgNeedsRefill(b) && start >= 1 && n <= 511
    ensures MsgCalls(MsgAlloc(b, Some(start)).0, n) == Block(start + 1 + n, start + 511)
  {
    if n == 0 {
    } else {
      MsgBlockAfter(b, start, n - 1);
    }
  }

  /** One answer serves 512 calls, with consecutive numbers, whatever the service would say; then it is asked again. */
  lemma OneAnswerServesMsg(b: Block, start: int, n: nat, answer: Option<int>)
    requires MsgNeedsRefill(b) && start >= 1 && n <= 511
    ensures MsgAlloc(b, Some(start)).1 == Some(start)
    ensures var later := MsgAlloc(MsgCalls(MsgAlloc(b, Some(start)).0, n), answer).1;
            later == if n < 511 then Some(start + 1 + n) else answer
  {
    MsgBlockAfter(b, start, n);
  }

  function ConvCalls(m: Segments, conv: int, n: nat): Segments {
    if n == 0 then m else ConvAlloc(ConvCalls(m, conv, n - 1), conv, None).0
  }

  lemma {:induction false} ConvBlockAfter(m: Segments, conv: int, start: int, n: nat)
    requires ConvNeedsRefill(m, conv) && n <= 63
    ensures var t := ConvCalls(ConvAlloc(m, conv, Some(start)).0, conv, n);
            && conv in t && t[conv] == Block(start + 1 + n, start + 63)
            && forall c | c != conv :: if |m| < 4096 then (c in t <==> c in m) && (c in m ==> t[c] == m[c]) else c !in t
  {
    if n == 0 {
    } else {
      ConvBlockAfter(m, conv, start, n - 1);
    }
  }

  /**
   * One answer serves 64 calls for a conversation; the other conversations keep what they have, unless the map
   * had 4096 of them and was thrown away.
   */
  lemma OneAnswerServesConv(m: Segments, conv: int, start: int, n: nat, answer: Option<int>)
    requires ConvNeedsRefill(m, conv) && n <= 63
    ensures ConvAlloc(m, conv, Some(start)).1 == Some(start)
    ensures var t := ConvCalls(ConvAlloc(m, conv, Some(start)).0, conv, n);
            && ConvAlloc(t, conv, answer).1 == (if n < 63 then Some(start + 1 + n) else answer)
            && forall c | c != conv :: if |m| < 4096 then (c in t <==> c in m) && (c in m ==> t[c] == m[c]) else c !in t
  {
    ConvBlockAfter(m, conv, start, n);
  }

  /** The map never holds more than 4096 conversations. */
  lemma MapStaysSmall(m: Segments, conv: int, answer: Option<int>)
    requires |m| <= 4096
    ensures |ConvAlloc(m, conv, answer).0| <= 4096
  {
    var t := ConvAlloc(m, conv, answer).0;
    var u := if ConvNeedsRefill(m, conv) then Trimmed(m) else m;
    assert t.Keys <= u.Keys + {conv};
    SmallerSet(t.Keys, u.Keys + {conv});
    assert |t| == |t.Keys|;
  }

  lemma SmallerSet(a: set<int>, b: set<int>)
    requires a <= b
    ensures |a| <= |b|
  {
    assert b == a + (b - a);
  }

  class MsgIdAlloc {
    var cur: int
    var last: int

    constructor ()
      ensures cur == 0 && last == 0
    {
      cur, last := 0, 0;
    }

    /** `answer` is what AllocID would return: the start of a block, or an error. */
    method Alloc(answer: Option<int>) returns (v: Option<int>)
      modifies this
      ensures (Block(cur, last), v) == MsgAlloc(old(Block(cur, last)), answer)
    {
      if cur == 0 || cur > last {
        if answer.None? { return None; }
        cur, last := answer.value, answer.value + MSG_ID_STEP - 1;
      }
      v := Some(cur);
      cur := cur + 1;
    }
  }

  class ConvSeqAlloc {
    var m: Segments

    constructor ()
      ensures m == map[]
    {
      m := map[];
    }

    method Alloc(conv: int, answer: Option<int>) returns (v: Option<int>)
      modifies this
      ensures (m, v) == ConvAlloc(old(m), conv, answer)
    {
      ghost var refilled := false;
      while true
        invariant !refilled ==> m == old(m)
        invariant refilled ==> ConvNeedsRefill(old(m), conv) && answer.Some?
        invariant refilled ==>
                    m == Trimmed(old(m))[conv := Block(answer.value, answer.value + CONV_SEQ_STEP - 1)]
        decreases !refilled
      {
        if conv in m && m[conv].cur <= m[conv].last {
          v := Some(m[conv].cur);
          m := m[conv := Block(m[conv].cur + 1, m[conv].last)];
          assert refilled ==> m == Trimmed(old(m))[conv := Block(answer.value + 1, answer.value + CONV_SEQ_STEP - 1)];
          return;
        }
        if |m| >= CONV_SEQ_MAP_HIGH { m := map[]; }
        if answer.None? { return None; }
        m := m[conv := Block(answer.value, answer.value + CONV_SEQ_STEP - 1)];
        refilled := true;
      }
    }
  }

  // ---- Any number of processes ----

  datatype Key = Msg | Conv(id: int)

  datatype Issue = Issue(key: Key, start: int, n: int)

  datatype Handed = Handed(proc: nat, key: Key, value: int)

  datatype Proc = Proc(msg: Block, convs: Segments)

  datatype System = System(issues: seq<Issue>, procs: map<nat, Proc>, handed: seq<Handed>)

  datatype Act =
    | AllocMsg(p: nat, answer: Option<int>)
    | AllocConv(p: nat, conv: int, answer: Option<int>)
    | Restart(p: nat)                              // the process starts (again) with empty prefetchers
    | OtherCaller(key: Key, start: int, n: int)    // a range that reaches nobody here: lost answer, other client

  const EMPTY := Proc(Block(0, 0), map[])

  predicate Covers(i: Issue, key: Key, x: int) {
    i.key == key && i.start <= x < i.start + i.n
  }

  ghost predicate Issued(s: System, key: Key, x: int) {
    exists i :: 0 <= i < |s.issues| && Covers(s.issues[i], key, x)
  }

  /** What every answer of the service satisfies: positive numbers that it has not issued before. */
  ghost predicate Fresh(s: System, key: Key, start: int, n: int) {
    start >= 1 && n > 0 && forall x | start <= x < start + n :: !Issued(s, key, x)
  }

  ghost function Answer(s: System, key: Key, answer: Option<int>, n: int): Option<int> {
    if answer.Some? && Fresh(s, key, answer.value, n) then answer else None
  }

  function Record(s: System, key: Key, start: int, n: int): System {
    s.(issues := s.issues + [Issue(key, start, n)])
  }

  function Out(p: nat, key: Key, v: Option<int>): seq<Handed> {
    if v.Some? then [Handed(p, key, v.value)] else []
  }

  /** `msgIDAlloc.Alloc` of process p, `a` being what a call to the service would return. */
  function TakeMsg(s: System, p: nat, a: Option<int>): System
    requires p in s.procs
  {
    var (b, v) := MsgAlloc(s.procs[p].msg, a);
    var t := if MsgNeedsRefill(s.procs[p].msg) && a.Some? then Record(s, Msg, a.value, MSG_ID_STEP) else s;
    t.(procs := s.procs[p := s.procs[p].(msg := b)], handed := s.handed + Out(p, Msg, v))
  }

  /** `convSeqAlloc.Alloc` of process p. */
  function TakeConv(s: System, p: nat, conv: int, a: Option<int>): System
    requires p in s.procs
  {
    var (m, v) := ConvAlloc(s.procs[p].convs, conv, a);
    var t := if ConvNeedsRefill(s.procs[p].convs, conv) && a.Some?
             then Record(s, Conv(conv), a.value, CONV_SEQ_STEP) else s;
    t.(procs := s.procs[p := s.procs[p].(convs := m)], handed := s.handed + Out(p, Conv(conv), v))
  }

  ghost function Step(s: System, act: Act): System {
    match act
    case AllocMsg(p, answer) => if p !in s.procs then s else TakeMsg(s, p, Answer(s, Msg, answer, MSG_ID_STEP))
    case AllocConv(p, conv, answer) =>
      if p !in s.procs then s else TakeConv(s, p, conv, Answer(s, Conv(conv), answer, CONV_SEQ_STEP))
    case Restart(p) => s.(procs := s.procs[p := EMPTY])
    case OtherCaller(key, start, n) => if Fresh(s, key, start, n) then Record(s, key, start, n) else s
  }

  ghost function Reach(s: System, acts: seq<Act>): System
    decreases |acts|
  {
    if acts == [] then s else Reach(Step(s, acts[0]), acts[1..])
  }

  const START := System([], map[], [])

  /** What a call hands out: the next number held, or the first of an answer, which is then on record; else nothing. */
  lemma MsgHandsOut(s: System, p: nat, a: Option<int>)
    requires p in s.procs
    ensures var t, b := TakeMsg(s, p, a), s.procs[p].msg;
      if b.cur != 0 && b.cur <= b.last then t.handed == s.handed + [Handed(p, Msg, b.cur)] && t.issues == s.issues
      else if a.Some? then
        t.handed == s.handed + [Handed(p, Msg, a.value)] && t.issues == s.issues + [Issue(Msg, a.value, 512)]
      else t.handed == s.handed && t.issues == s.issues
  {
  }

  lemma ConvHandsOut(s: System, p: nat, conv: int, a: Option<int>)
    requires p in s.procs
    ensures var t, m := TakeConv(s, p, conv, a), s.procs[p].convs;
      if conv in m && m[conv].cur <= m[conv].last then
        t.handed == s.handed + [Handed(p, Conv(conv), m[conv].cur)] && t.issues == s.issues
      else if a.Some? then
        && t.handed == s.handed + [Handed(p, Conv(conv), a.value)]
        && t.issues == s.issues + [Issue(Conv(conv), a.value, 64)]
      else t.handed == s.handed && t.issues == s.issues
  {
  }

  /** A fresh answer reaches its caller; a start of the process empties both prefetchers. */
  lemma StepHandsOut(s: System, p: nat, start: int)
    requires p in s.procs && Fresh(s, Msg, start, 512)
    ensures Step(s, AllocMsg(p, Some(start))) == TakeMsg(s, p, Some(start))
    ensures Step(s, OtherCaller(Msg, start, 512)) == s.(issues := s.issues + [Issue(Msg, start, 512)])
    ensures Step(s, Restart(p)) == s.(procs := s.procs[p := Proc(Block(0, 0), map[])])
  {
  }

  /** The block process p holds for a key, if it has one. */
  function Stash(s: System, p: nat, key: Key): Option<Block> {
    if p !in s.procs then None
    else match key
      case Msg => if s.procs[p].msg.cur == 0 then None else Some(s.procs[p].msg)
      case Conv(c) => if c in s.procs[p].convs then Some(s.procs[p].convs[c]) else None
  }

  predicate InStash(s: System, p: nat, key: Key, x: int) {
    var b := Stash(s, p, key);
    b.Some? && b.value.cur <= x <= b.value.last
  }

  ghost predicate HandedOut(s: System, key: Key, x: int) {
    exists i :: 0 <= i < |s.handed| && s.handed[i].key == key && s.handed[i].value == x
  }

  ghost predicate Inv(s: System) {
    && (forall p: nat, key, x :: InStash(s, p, key, x) ==> x >= 1 && Issued(s, key, x) && !HandedOut(s, key, x))
    && (forall p: nat, q: nat, key, x :: p != q && InStash(s, p, key, x) ==> !InStash(s, q, key, x))
    && (forall i | 0 <= i < |s.handed| :: s.handed[i].value >= 1 && Issued(s, s.handed[i].key, s.handed[i].value))
    && (forall i, j | 0 <= i < j < |s.handed| ::
          s.handed[i].key == s.handed[j].key ==> s.handed[i].value != s.handed[j].value)
    && (forall p: nat :: p in s.procs ==> s.procs[p].msg.cur >= 0)
  }

  /** How a step may change the system: process p's stash for `key` and the numbers handed out. */
  ghost predicate Moves(s: System, t: System, p: nat, key: Key) {
    && (forall k, x :: Issued(s, k, x) ==> Issued(t, k, x))
    && (forall q: nat, k, x :: InStash(t, q, k, x) && (q != p || k != key) ==> InStash(s, q, k, x))
    && (forall q: nat :: q in t.procs ==> t.procs[q].msg.cur >= 0)
  }

  /** The number handed out came from p's stash, or from an answer that was fresh; the rest of it is p's new stash. */
  ghost predicate Source(s: System, t: System, p: nat, key: Key, v: int) {
    && Issued(t, key, v) && v >= 1
    && (forall x :: InStash(t, p, key, x) ==>
          x > v && Issued(t, key, x) && (InStash(s, p, key, x) || !Issued(s, key, x)))
    && (InStash(s, p, key, v) || !Issued(s, key, v))
  }

  lemma HandKeeps(s: System, t: System, p: nat, key: Key, v: int)
    requires Inv(s) && Moves(s, t, p, key) && Source(s, t, p, key, v) && t.handed == s.handed + [Handed(p, key, v)]
    ensures Inv(t)
  {
    NewOnly(s, t, p, key, v);
    forall q: nat, k, x | InStash(t, q, k, x) ensures x >= 1 && Issued(t, k, x) && !HandedOut(t, k, x) {
      NotHanded(s, t, p, key, v, q, k, x);
    }
    forall q: nat, r: nat, k, x | q != r && InStash(t, q, k, x) ensures !InStash(t, r, k, x) {
      Separate(s, t, p, key, v, q, r, k, x);
    }
    forall i | 0 <= i < |t.handed| ensures t.handed[i].value >= 1 && Issued(t, t.handed[i].key, t.handed[i].value) {
      if i < |s.handed| { assert t.handed[i] == s.handed[i]; }
    }
    forall i, j | 0 <= i < j < |t.handed| && t.handed[i].key == t.handed[j].key
      ensures t.handed[i].value != t.handed[j].value
    {
      assert t.handed[i] == s.handed[i];
      if j < |s.handed| { assert t.handed[j] == s.handed[j]; }
    }
  }

  /** The number handed out has not been handed out before. */
  lemma NewOnly(s: System, t: System, p: nat, key: Key, v: int)
    requires Inv(s) && Source(s, t, p, key, v)
    ensures !HandedOut(s, key, v)
  {
  }

  lemma NotHanded(s: System, t: System, p: nat, key: Key, v: int, q: nat, k: Key, x: int)
    requires Inv(s) && Moves(s, t, p, key) && Source(s, t, p, key, v) && t.handed == s.handed + [Handed(p, key, v)]
    requires InStash(t, q, k, x)
    ensures x >= 1 && Issued(t, k, x) && !HandedOut(t, k, x)
  {
    if q == p && k == key {
      assert !HandedOut(s, k, x);
    } else {
      assert InStash(s, q, k, x);
    }
    forall i | 0 <= i < |t.handed| ensures !(t.handed[i].key == k && t.handed[i].value == x) {
      assert i < |s.handed| ==> t.handed[i] == s.handed[i];
    }
  }

  lemma Separate(s: System, t: System, p: nat, key: Key, v: int, q: nat, r: nat, k: Key, x: int)
    requires Inv(s) && Moves(s, t, p, key) && Source(s, t, p, key, v) && q != r
    ensures !(InStash(t, q, k, x) && InStash(t, r, k, x))
  {
  }

  /** A step that hands out nothing and only shrinks stashes. */
  ghost predicate Quiet(s: System, t: System) {
    && t.handed == s.handed
    && (forall k, x :: Issued(s, k, x) ==> Issued(t, k, x))
    && (forall q: nat, k, x :: InStash(t, q, k, x) ==> InStash(s, q, k, x))
    && (forall q: nat :: q in t.procs ==> t.procs[q].msg.cur >= 0)
  }

  lemma QuietKeeps(s: System, t: System)
    requires Inv(s) && Quiet(s, t)
    ensures Inv(t)
  {
    forall q: nat, k, x | InStash(t, q, k, x) ensures x >= 1 && Issued(t, k, x) && !HandedOut(t, k, x) {
      assert InStash(s, q, k, x);
    }
  }

  lemma RecordIssues(s: System, key: Key, start: int, n: int, k: Key, x: int)
    ensures Issued(Record(s, key, start, n), k, x) <==> Issued(s, k, x) || Covers(Issue(key, start, n), k, x)
  {
    var t := Record(s, key, start, n);
    if i :| 0 <= i < |s.issues| && Covers(s.issues[i], k, x) { assert t.issues[i] == s.issues[i]; }
    if Covers(Issue(key, start, n), k, x) { assert Covers(t.issues[|s.issues|], k, x); }
    if i :| 0 <= i < |t.issues| && Covers(t.issues[i], k, x) && i < |s.issues| { assert Covers(s.issues[i], k, x); }
  }

  lemma AllocMsgEffect(s: System, p: nat, answer: Option<int>) returns (v: Option<int>)
    requires Inv(s) && p in s.procs
    ensures var t := Step(s, AllocMsg(p, answer));
            if v.None? then Quiet(s, t)
            else
              Moves(s, t, p, Msg) && Source(s, t, p, Msg, v.value) && t.handed == s.handed + [Handed(p, Msg, v.value)]
                 && (InStash(s, p, Msg, v.value) || answer == v)
  {
    var t := Step(s, AllocMsg(p, answer));
    var b := s.procs[p].msg;
    var a := Answer(s, Msg, answer, MSG_ID_STEP);
    v := MsgAlloc(b, a).1;
    forall k, x ensures Issued(t, k, x) <==>
        Issued(s, k, x) || (MsgNeedsRefill(b) && a.Some? && Covers(Issue(Msg, a.value, MSG_ID_STEP), k, x))
    {
      if MsgNeedsRefill(b) && a.Some? { RecordIssues(s, Msg, a.value, MSG_ID_STEP, k, x); }
      assert t.issues == (if MsgNeedsRefill(b) && a.Some? then Record(s, Msg, a.value, MSG_ID_STEP) else s).issues;
    }
    if !MsgNeedsRefill(b) {
      assert InStash(s, p, Msg, b.cur);
      forall x | InStash(t, p, Msg, x) ensures x > b.cur && InStash(s, p, Msg, x) && Issued(t, Msg, x) {
        assert InStash(s, p, Msg, x);
        assert Issued(s, Msg, x);
      }
    }
  }

  lemma AllocConvEffect(s: System, p: nat, conv: int, answer: Option<int>) returns (v: Option<int>)
    requires Inv(s) && p in s.procs
    ensures var t := Step(s, AllocConv(p, conv, answer));
            if v.None? then Quiet(s, t)
            else Moves(s, t, p, Conv(conv)) && Source(s, t, p, Conv(conv), v.value)
                 && t.handed == s.handed + [Handed(p, Conv(conv), v.value)]
                 && (InStash(s, p, Conv(conv), v.value) || answer == v)
  {
    var t := Step(s, AllocConv(p, conv, answer));
    var m, key := s.procs[p].convs, Conv(conv);
    var a := Answer(s, key, answer, CONV_SEQ_STEP);
    var refill := ConvNeedsRefill(m, conv);
    v := ConvAlloc(m, conv, a).1;
    forall k, x ensures Issued(t, k, x) <==>
        Issued(s, k, x) || (refill && a.Some? && Covers(Issue(key, a.value, CONV_SEQ_STEP), k, x))
    {
      if refill && a.Some? { RecordIssues(s, key, a.value, CONV_SEQ_STEP, k, x); }
      assert t.issues == (if refill && a.Some? then Record(s, key, a.value, CONV_SEQ_STEP) else s).issues;
    }
    if !refill {
      assert InStash(s, p, key, m[conv].cur);
      forall x | InStash(t, p, key, x) ensures x > m[conv].cur && InStash(s, p, key, x) && Issued(t, key, x) {
        assert InStash(s, p, key, x);
        assert Issued(s, key, x);
      }
    }
  }

  lemma OtherQuiet(s: System, key: Key, start: int, n: int)
    requires Inv(s)
    ensures Quiet(s, Step(s, OtherCaller(key, start, n)))
  {
    forall k, x | Issued(s, k, x) ensures Issued(Step(s, OtherCaller(key, start, n)), k, x) {
      RecordIssues(s, key, start, n, k, x);
    }
  }

  lemma StepKeeps(s: System, act: Act)
    requires Inv(s)
    ensures Inv(Step(s, act))
  {
    var t := Step(s, act);
    match act
    case AllocMsg(p, answer) =>
      if p in s.procs {
        var v := AllocMsgEffect(s, p, answer);
        if v.Some? { HandKeeps(s, t, p, Msg, v.value); } else { QuietKeeps(s, t); }
      }
    case AllocConv(p, conv, answer) =>
      if p in s.procs {
        var v := AllocConvEffect(s, p, conv, answer);
        if v.Some? { HandKeeps(s, t, p, Conv(conv), v.value); } else { QuietKeeps(s, t); }
      }
    case Restart(p) => QuietKeeps(s, t);
    case OtherCaller(key, start, n) => OtherQuiet(s, key, start, n); QuietKeeps(s, t);
  }

  lemma {:induction false} ReachKeeps(s: System, acts: seq<Act>)
    requires Inv(s)
    ensures Inv(Reach(s, acts))
    decreases |acts|
  {
    if acts == [] {
    } else {
      StepKeeps(s, acts[0]);
      ReachKeeps(Step(s, acts[0]), acts[1..]);
    }
  }

  /**
   * No msg_id, and no (conversation, seq), is ever handed out twice, by whatever processes, across map clears,
   * restarts and lost answers; and 0, the "never loaded" mark, is never handed out.
   */
  lemma NeverTwice(acts: seq<Act>, i: nat, j: nat)
    requires i < j < |Reach(START, acts).handed|
    ensures var h := Reach(START, acts).handed;
            && h[i].value >= 1 && (h[i].key == h[j].key ==> h[i].value != h[j].value)
  {
    ReachKeeps(START, acts);
  }

  // ---- Order, when the calls to the service do not overlap ----

  /** The service's answers for a key lie above everything it has issued for it. */
  ghost predicate Above(s: System, key: Key, start: int) {
    forall x :: Issued(s, key, x) ==> x < start
  }

  ghost predicate AnswersRise(s: System, act: Act) {
    match act
    case AllocMsg(_, answer) => answer.Some? ==> Above(s, Msg, answer.value)
    case AllocConv(_, c, answer) => answer.Some? ==> Above(s, Conv(c), answer.value)
    case OtherCaller(key, start, _) => Above(s, key, start)
    case Restart(_) => true
  }

  ghost predicate AllRise(s: System, acts: seq<Act>)
    decreases |acts|
  {
    acts == [] || (AnswersRise(s, acts[0]) && AllRise(Step(s, acts[0]), acts[1..]))
  }

  /** What a process has handed out for a key lies below what it still holds, and rises. */
  ghost predicate Ordered(s: System) {
    && Inv(s)
    && (forall i, p: nat, key, x | 0 <= i < |s.handed| && InStash(s, p, key, x) ::
          s.handed[i].proc == p && s.handed[i].key == key ==> s.handed[i].value < x)
    && (forall i, j | 0 <= i < j < |s.handed| ::
          s.handed[i].proc == s.handed[j].proc && s.handed[i].key == s.handed[j].key
          ==> s.handed[i].value < s.handed[j].value)
  }

  lemma HandRises(s: System, t: System, p: nat, key: Key, v: int)
    requires Ordered(s) && Inv(t) && Moves(s, t, p, key) && Source(s, t, p, key, v)
    requires t.handed == s.handed + [Handed(p, key, v)]
    requires InStash(s, p, key, v) || Above(s, key, v)
    ensures Ordered(t)
  {
    forall i | 0 <= i < |s.handed| && s.handed[i].proc == p && s.handed[i].key == key ensures s.handed[i].value < v {
      assert Issued(s, key, s.handed[i].value);
    }
    forall i, q: nat, k, x | 0 <= i < |t.handed| && InStash(t, q, k, x) && t.handed[i].proc == q && t.handed[i].key == k
      ensures t.handed[i].value < x
    {
      if i < |s.handed| {
        assert t.handed[i] == s.handed[i];
        if q == p && k == key { assert x > v; } else { assert InStash(s, q, k, x); }
      }
    }
    forall i, j | 0 <= i < j < |t.handed| && t.handed[i].proc == t.handed[j].proc && t.handed[i].key == t.handed[j].key
      ensures t.handed[i].value < t.handed[j].value
    {
      assert t.handed[i] == s.handed[i];
      if j < |s.handed| { assert t.handed[j] == s.handed[j]; }
    }
  }

  lemma QuietRises(s: System, t: System)
    requires Ordered(s) && Inv(t) && Quiet(s, t)
    ensures Ordered(t)
  {
  }

  lemma StepRises(s: System, act: Act)
    requires Ordered(s) && AnswersRise(s, act)
    ensures Ordered(Step(s, act))
  {
    var t := Step(s, act);
    StepKeeps(s, act);
    match act
    case AllocMsg(p, answer) =>
      if p in s.procs {
        var v := AllocMsgEffect(s, p, answer);
        if v.Some? { HandRises(s, t, p, Msg, v.value); } else { QuietRises(s, t); }
      }
    case AllocConv(p, conv, answer) =>
      if p in s.procs {
        var v := AllocConvEffect(s, p, conv, answer);
        if v.Some? { HandRises(s, t, p, Conv(conv), v.value); } else { QuietRises(s, t); }
      }
    case Restart(p) => QuietRises(s, t);
    case OtherCaller(key, start, n) => OtherQuiet(s, key, start, n); QuietRises(s, t);
  }

  lemma {:induction false} ReachRises(s: System, acts: seq<Act>)
    requires Ordered(s) && AllRise(s, acts)
    ensures Ordered(Reach(s, acts))
    decreases |acts|
  {
    if acts == [] {
    } else {
      StepRises(s, acts[0]);
      ReachRises(Step(s, acts[0]), acts[1..]);
    }
  }

  /**
   * With serialised service calls, each process hands out strictly increasing msg_ids, and strictly increasing
   * seqs per conversation, across map clears and restarts.
   */
  lemma EachProcessRises(acts: seq<Act>, i: nat, j: nat)
    requires AllRise(START, acts) && i < j < |Reach(START, acts).handed|
    ensures var h := Reach(START, acts).handed;
            h[i].proc == h[j].proc && h[i].key == h[j].key ==> h[i].value < h[j].value
  {
    ReachRises(START, acts);
  }
}
