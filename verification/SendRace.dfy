/**
 * Sends on one key that overlap (internal/message/service.go, SendMessage), one shared access a step: the Redis
 * marker, the message table with its unique key, and any number of calls racing between them. A transaction is
 * one step, because its insert holds the unique key until it ends. Run alone, a call does what Send says.
 */
module SendRace {
  import opened Common
  import opened Send

  /** Where a success takes its value from: the call's own commit, the table, or a marker. */
  datatype Source = Own | Table | Marker

  datatype Pc =
    | Entered
    | Allocating
    | Putting(v: Val)               // about to SETNX
    | Existing(v: Val)              // SETNX found a marker, about to read it
    | Querying(v: Val)              // no marker to read any more, about to query the table
    | Inserting(v: Val)
    | Deleting(duplicate: bool)     // about to delete the marker after a failed insert
    | QueryingAgain                 // the unique key clashed
    | Ended(result: Result, source: Source)

  datatype Call = Call(cached: bool, pc: Pc)

  /** `commits`: every value committed for the key; `puts`: every value ever put into its marker. */
  datatype State = State(
    row: Option<Val>, marker: Option<Val>, calls: map<nat, Call>, commits: seq<Val>, puts: set<Val>)

  datatype Transaction = NoMarshal | NoBegin | NoInsert | Writes(commit: Commit)

  datatype Action =
    | Enter(c: nat, cached: bool)
    | Refuse(c: nat, failed: bool)            // the member lookup fails, or the sender is not a member
    | FirstGet(c: nat, asks: bool)            // `asks`: the Bloom filter says perhaps and Redis answers
    | Allocate(c: nat, v: Option<Val>)
    | PutIfNone(c: nat, put: Put)
    | SecondGet(c: nat, ok: bool)
    | Query(c: nat, ok: bool)
    | Transact(c: nat, tx: Transaction)
    | Delete(c: nat, ok: bool)
    | QueryAgain(c: nat, ok: bool)
    | ExpireMarker

  function To(s: State, c: nat, pc: Pc): State
    requires c in s.calls
  {
    s.(calls := s.calls[c := s.calls[c].(pc := pc)])
  }

  function Fail(s: State, c: nat): State
    requires c in s.calls
  {
    To(s, c, Ended(Failed, Own))
  }

  function Write(s: State, v: Val): State {
    s.(row := Some(v), commits := s.commits + [v])
  }

  /** The transaction: the unique key refuses a second row. */
  function Insert(s: State, c: nat, v: Val, tx: Transaction): State
    requires c in s.calls
  {
    if tx.NoMarshal? then To(s, c, Deleting(false))
    else if tx.NoBegin? then Fail(s, c)
    else if s.row.Some? then To(s, c, Deleting(true))
    else if tx.NoInsert? || tx.commit.Aborts? then To(s, c, Deleting(false))
    else if tx.commit.Commits? then To(Write(s, v), c, Ended(Success(v), Own))
    else To(Write(s, v), c, Deleting(false))
  }

  /** One access of call c, which is in the right place for it. */
  function Access(s: State, a: Action): State
    requires !a.Enter? && !a.ExpireMarker? && a.c in s.calls
  {
    var c, pc, cached := a.c, s.calls[a.c].pc, s.calls[a.c].cached;
    match a
    case Refuse(_, failed) =>
      if pc.Entered? then To(s, c, Ended(if failed then Failed else NotMember, Own)) else s
    case FirstGet(_, asks) =>
      if !pc.Entered? then s
      else if cached && asks && s.marker.Some? then To(s, c, Ended(Success(s.marker.value), Marker))
      else To(s, c, Allocating)
    case Allocate(_, v) =>
      if !pc.Allocating? then s
      else if v.None? then Fail(s, c)
      else To(s, c, if cached then Putting(v.value) else Inserting(v.value))
    case PutIfNone(_, put) =>
      if !pc.Putting? then s
      else if put.PutLost? then To(s, c, Inserting(pc.v))
      else if s.marker.Some? then To(s, c, if put.Answers? then Existing(pc.v) else Inserting(pc.v))
      else To(s.(marker := Some(pc.v), puts := s.puts + {pc.v}), c, Inserting(pc.v))
    case SecondGet(_, ok) =>
      if !pc.Existing? then s
      else if ok && s.marker.Some? then To(s, c, Ended(Success(s.marker.value), Marker))
      else To(s, c, Querying(pc.v))
    case Query(_, ok) =>
      if !pc.Querying? then s
      else if ok && s.row.Some? then To(s, c, Ended(Success(s.row.value), Table))
      else To(s, c, Inserting(pc.v))
    case Transact(_, tx) => if pc.Inserting? then Insert(s, c, pc.v, tx) else s
    case Delete(_, ok) =>
      if !pc.Deleting? then s
      else
        To(if cached && ok then s.(marker := None) else s, c,
           if pc.duplicate then QueryingAgain else Ended(Failed, Own))
    case QueryAgain(_, ok) =>
      if !pc.QueryingAgain? then s
      else To(s, c, if ok && s.row.Some? then Ended(Success(s.row.value), Table) else Ended(Failed, Own))
    case _ => s
  }

  function Next(s: State, a: Action): State {
    match a
    case Enter(c, cached) => if c in s.calls then s else s.(calls := s.calls[c := Call(cached, Entered)])
    case ExpireMarker => s.(marker := None)
    case _ => if a.c in s.calls then Access(s, a) else s
  }

  function Runs(s: State, acts: seq<Action>): State
    decreases |acts|
  {
    if acts == [] then s else Runs(Next(s, acts[0]), acts[1..])
  }

  const START := State(None, None, map[], [], {})

  // ---- At most one row, never changed ----

  /** One call's answer against the table and the log. */
  predicate CallTrue(s: State, pc: Pc) {
    match pc
    case Ended(Success(v), Marker) => v in s.puts
    case Ended(Success(v), _) => s.row == Some(v)
    case Deleting(duplicate) => duplicate ==> s.row.Some?
    case QueryingAgain => s.row.Some?
    case _ => true
  }

  ghost predicate Inv(s: State) {
    && (if s.row.Some? then s.commits == [s.row.value] else s.commits == [])
    && (s.marker.Some? ==> s.marker.value in s.puts)
    && forall c | c in s.calls :: CallTrue(s, s.calls[c].pc)
  }

  /** From s to t a row stays, and so does an answer. */
  ghost predicate Keeps(s: State, t: State) {
    && (s.row.Some? ==> t.row == s.row) && s.puts <= t.puts
    && forall c | c in s.calls :: c in t.calls && (s.calls[c].pc.Ended? ==> t.calls[c].pc == s.calls[c].pc)
  }

  /** One call moves; the table, the marker and the log move on. */
  lemma MoveKeeps(s: State, t: State, c: nat)
    requires Inv(s) && Keeps(s, t) && c in s.calls && t.calls.Keys == s.calls.Keys
    requires forall d | d in s.calls && d != c :: t.calls[d] == s.calls[d]
    requires CallTrue(t, t.calls[c].pc) && (t.marker.Some? ==> t.marker.value in t.puts)
    requires if t.row.Some? then t.commits == [t.row.value] else t.commits == []
    ensures Inv(t)
  {
    forall d | d in t.calls ensures CallTrue(t, t.calls[d].pc) {
      assert CallTrue(s, s.calls[d].pc);
    }
  }

  lemma InsertKeeps(s: State, c: nat, v: Val, tx: Transaction)
    requires Inv(s) && c in s.calls && !s.calls[c].pc.Ended?
    ensures Inv(Insert(s, c, v, tx)) && Keeps(s, Insert(s, c, v, tx))
  {
    MoveKeeps(s, Insert(s, c, v, tx), c);
  }

  /** SETNX and the marker delete. */
  lemma MarkerKeeps(s: State, a: Action)
    requires Inv(s) && (a.PutIfNone? || a.Delete?) && a.c in s.calls && CallTrue(s, s.calls[a.c].pc)
    ensures Inv(Access(s, a)) && Keeps(s, Access(s, a))
  {
    MoveKeeps(s, Access(s, a), a.c);
  }

  /** The accesses that write neither the marker nor the table. */
  lemma ReadKeeps(s: State, a: Action)
    requires Inv(s) && !a.Enter? && !a.ExpireMarker? && !a.Transact? && !a.PutIfNone? && !a.Delete?
    requires a.c in s.calls && CallTrue(s, s.calls[a.c].pc)
    ensures Inv(Access(s, a)) && Keeps(s, Access(s, a))
  {
    MoveKeeps(s, Access(s, a), a.c);
  }

  lemma AccessKeeps(s: State, a: Action)
    requires Inv(s) && !a.Enter? && !a.ExpireMarker? && a.c in s.calls
    ensures Inv(Access(s, a)) && Keeps(s, Access(s, a))
  {
    assert CallTrue(s, s.calls[a.c].pc);
    if a.Transact? {
      if s.calls[a.c].pc.Inserting? { InsertKeeps(s, a.c, s.calls[a.c].pc.v, a.tx); }
    } else if a.PutIfNone? || a.Delete? {
      MarkerKeeps(s, a);
    } else {
      ReadKeeps(s, a);
    }
  }

  lemma NextKeeps(s: State, a: Action)
    requires Inv(s)
    ensures Inv(Next(s, a)) && Keeps(s, Next(s, a))
  {
    var t := Next(s, a);
    if a.Enter? || a.ExpireMarker? {
      forall c | c in t.calls ensures CallTrue(t, t.calls[c].pc) {
        if c in s.calls { assert CallTrue(s, s.calls[c].pc); }
      }
    } else if a.c in s.calls {
      AccessKeeps(s, a);
    }
  }

  lemma {:induction false} RunsKeep(s: State, acts: seq<Action>)
    requires Inv(s)
    ensures Inv(Runs(s, acts)) && Keeps(s, Runs(s, acts))
    decreases |acts|
  {
    if acts == [] {
    } else {
      NextKeeps(s, acts[0]);
      RunsKeep(Next(s, acts[0]), acts[1..]);
    }
  }

  /** Over every interleaving at most one value is ever committed for the key, and it stays. */
  lemma OneRow(acts: seq<Action>, more: seq<Action>)
    ensures var s, t := Runs(START, acts), Runs(Runs(START, acts), more);
      && |t.commits| <= 1 && (t.row.Some? <==> |t.commits| == 1)
      && (s.row.Some? ==> t.row == s.row)
  {
    RunsKeep(START, acts);
    RunsKeep(Runs(START, acts), more);
  }

  /** A success that did not come from a marker is the row for ever; one from a marker is a value that a call put. */
  lemma AnswersTrue(acts: seq<Action>, more: seq<Action>, c: nat, v: Val, source: Source)
    requires c in Runs(START, acts).calls && Runs(START, acts).calls[c].pc == Ended(Success(v), source)
    ensures var t := Runs(Runs(START, acts), more);
      if source.Marker? then v in t.puts else t.row == Some(v)
  {
    RunsKeep(START, acts);
    assert CallTrue(Runs(START, acts), Runs(START, acts).calls[c].pc);
    RunsKeep(Runs(START, acts), more);
  }

  /** Two successes agree, unless one of them is a marker whose value was never committed. */
  lemma RacersAgree(acts: seq<Action>, c: nat, d: nat, v: Val, w: Val, from: Source, other: Source)
    requires var s := Runs(START, acts);
      && c in s.calls && s.calls[c].pc == Ended(Success(v), from)
      && d in s.calls && s.calls[d].pc == Ended(Success(w), other) && !other.Marker?
    ensures var s := Runs(START, acts); v == w <==> s.commits == [v]
  {
    RunsKeep(START, acts);
    var s := Runs(START, acts);
    assert CallTrue(s, s.calls[c].pc) && CallTrue(s, s.calls[d].pc);
  }

  // ---- The race that a marker loses ----

  function Sent(c: nat, v: Val): seq<Action> {
    [Enter(c, true), FirstGet(c, true), Allocate(c, Some(v)), PutIfNone(c, Answers)]
  }

  lemma Two(s: State, a: Action, b: Action)
    ensures Runs(s, [a, b]) == Next(Next(s, a), b)
  {
    assert [a, b][1..] == [b] && [b][1..] == [];
    assert Runs(Next(s, a), [b]) == Runs(Next(Next(s, a), b), []);
  }

  lemma {:induction false} RunsConcat(s: State, a: seq<Action>, b: seq<Action>)
    ensures Runs(s, a + b) == Runs(Runs(s, a), b)
    decreases |a|
  {
    if a == [] {
      assert a + b == b;
    } else {
      assert (a + b)[1..] == a[1..] + b;
      RunsConcat(Next(s, a[0]), a[1..], b);
    }
  }

  lemma SentPuts(s: State, c: nat, v: Val)
    requires c !in s.calls && s.marker.None?
    ensures Runs(s, Sent(c, v))
         == State(s.row, Some(v), s.calls[c := Call(true, Inserting(v))], s.commits, s.puts + {v})
  {
    var t := Next(s, Enter(c, true));
    Two(s, Enter(c, true), FirstGet(c, true));
    var u := Next(t, FirstGet(c, true));
    Two(u, Allocate(c, Some(v)), PutIfNone(c, Answers));
    RunsConcat(s, [Enter(c, true), FirstGet(c, true)], [Allocate(c, Some(v)), PutIfNone(c, Answers)]);
    assert s.calls[c := Call(true, Entered)][c := Call(true, Allocating)][c := Call(true, Putting(v))]
      [c := Call(true, Inserting(v))] == s.calls[c := Call(true, Inserting(v))];
  }

  /** Call 1 answers from the marker of call 0, whose insert then fails. */
  const READ := [Enter(1, true), FirstGet(1, true)]
  const FAIL := [Transact(0, NoInsert), Delete(0, true)]

  /** Call 2 stores another value. */
  const STORE := [Transact(2, Writes(Commits)), ExpireMarker]

  function Misled(a: Val, b: Val): seq<Action> {
    Sent(0, a) + (READ + (FAIL + (Sent(2, b) + STORE)))
  }

  lemma ReadsMarker(s: State, a: Val)
    requires s == State(None, Some(a), map[0 := Call(true, Inserting(a))], [], {a})
    ensures var t := Runs(s, READ);
      && t.row.None? && t.marker == Some(a) && t.commits == [] && t.puts == {a} && 2 !in t.calls
      && 0 in t.calls && t.calls[0] == Call(true, Inserting(a))
      && 1 in t.calls && t.calls[1].pc == Ended(Success(a), Marker)
  {
    Two(s, Enter(1, true), FirstGet(1, true));
  }

  lemma Fails(s: State, a: Val)
    requires s.row.None? && 0 in s.calls && s.calls[0] == Call(true, Inserting(a))
    ensures var t := Runs(s, FAIL);
      && t.row.None? && t.marker.None? && t.calls.Keys == s.calls.Keys
      && forall c | c in s.calls && c != 0 :: t.calls[c] == s.calls[c]
  {
    Two(s, Transact(0, NoInsert), Delete(0, true));
  }

  lemma Stores(s: State, b: Val)
    requires s.row.None? && 2 in s.calls && s.calls[2] == Call(true, Inserting(b))
    ensures var t := Runs(s, STORE);
      && t.row == Some(b) && t.calls.Keys == s.calls.Keys && t.calls[2].pc == Ended(Success(b), Own)
      && forall c | c in s.calls && c != 2 :: t.calls[c] == s.calls[c]
  {
    Two(s, Transact(2, Writes(Commits)), ExpireMarker);
  }

  /**
   * With overlapping calls even a run in which every marker is deleted as it should be has two successes that
   * disagree, the one from a marker for a value that was never stored.
   */
  lemma OverlapMisleads(a: Val, b: Val)
    ensures var t := Runs(START, Misled(a, b));
      && t.row == Some(b) && 1 in t.calls && t.calls[1].pc == Ended(Success(a), Marker)
      && 2 in t.calls && t.calls[2].pc == Ended(Success(b), Own)
  {
    var s1 := Runs(START, Sent(0, a));
    SentPuts(START, 0, a);
    RunsConcat(START, Sent(0, a), READ + (FAIL + (Sent(2, b) + STORE)));
    assert s1.calls == map[0 := Call(true, Inserting(a))] && s1.puts == {a};
    ReadsMarker(s1, a);
    FailsThenStores(Runs(s1, READ), a, b);
    RunsConcat(s1, READ, FAIL + (Sent(2, b) + STORE));
  }

  lemma FailsThenStores(s: State, a: Val, b: Val)
    requires s.row.None? && 2 !in s.calls && 0 in s.calls && s.calls[0] == Call(true, Inserting(a)) && 1 in s.calls
    ensures var t := Runs(s, FAIL + (Sent(2, b) + STORE));
      t.row == Some(b) && 1 in t.calls && t.calls[1] == s.calls[1]
      && 2 in t.calls && t.calls[2].pc == Ended(Success(b), Own)
  {
    Fails(s, a);
    var u := Runs(s, FAIL);
    SentPuts(u, 2, b);
    Stores(Runs(u, Sent(2, b)), b);
    RunsConcat(s, FAIL, Sent(2, b) + STORE);
    RunsConcat(u, Sent(2, b), STORE);
  }

  // ---- A call that runs alone is Send.SendOnce ----

  function Lookup(m: map<Key, Val>, k: Key): Option<Val> {
    if k in m then Some(m[k]) else None
  }

  /** What the state shows of key k. */
  predicate Shows(s: State, w: World, k: Key) {
    s.row == Lookup(w.rows, k) && s.marker == Lookup(w.markers, k)
  }

  predicate Answered(s: State, c: nat, r: Result) {
    c in s.calls && s.calls[c].pc.Ended? && s.calls[c].pc.result == r
  }

  function TransactionOf(e: Env): Transaction {
    if !e.marshalOk then NoMarshal else if !e.beginOk then NoBegin
    else if !e.insertOk || !e.localOk then NoInsert else Writes(e.commit)
  }

  /** From the transaction on. */
  function Closing(s: State, c: nat, e: Env): State {
    Next(Next(Next(s, Transact(c, TransactionOf(e))), Delete(c, e.delOk)), QueryAgain(c, e.queryAgainOk))
  }

  /** A failed insert: the marker is deleted, and after a clash of the unique key the table is asked. */
  lemma DeletingIsSend(s: State, w: World, k: Key, c: nat, duplicate: bool, e: Env)
    requires c in s.calls && s.calls[c] == Call(e.cached, Deleting(duplicate)) && Shows(s, w, k)
    ensures var t := Next(Next(s, Delete(c, e.delOk)), QueryAgain(c, e.queryAgainOk));
      && Shows(t, Del(w, k, e), k)
      && Answered(t, c, if duplicate && e.queryAgainOk && k in w.rows then Success(w.rows[k]) else Failed)
  {
  }

  lemma TransactIsSend(s: State, w: World, k: Key, c: nat, v: Val, e: Env)
    requires c in s.calls && s.calls[c] == Call(e.cached, Inserting(v)) && Shows(s, w, k)
    ensures var t := Next(s, Transact(c, TransactionOf(e)));
      var done := e.marshalOk && e.beginOk && k !in w.rows && e.insertOk && e.localOk && !e.commit.Aborts?;
      && Shows(t, if done then w.(rows := w.rows[k := v]) else w, k) && c in t.calls
      && t.calls[c] == Call(e.cached,
           if e.marshalOk && !e.beginOk then Ended(Failed, Own)
           else if done && e.commit.Commits? then Ended(Success(v), Own)
           else Deleting(e.marshalOk && k in w.rows))
  {
  }

  lemma ClosingIsInsert(s: State, w: World, k: Key, c: nat, v: Val, e: Env)
    requires c in s.calls && s.calls[c] == Call(e.cached, Inserting(v)) && Shows(s, w, k)
    ensures var (w', r) := Send.Insert(w, k, v, e); Shows(Closing(s, c, e), w', k) && Answered(Closing(s, c, e), c, r)
  {
    var t := Next(s, Transact(c, TransactionOf(e)));
    TransactIsSend(s, w, k, c, v, e);
    if t.calls[c].pc.Deleting? {
      var done := e.marshalOk && e.beginOk && k !in w.rows && e.insertOk && e.localOk && !e.commit.Aborts?;
      DeletingIsSend(t, if done then w.(rows := w.rows[k := v]) else w, k, c, t.calls[c].pc.duplicate, e);
    }
  }

  lemma EndedStays(s: State, c: nat, e: Env)
    requires c in s.calls && s.calls[c].pc.Ended?
    ensures Closing(s, c, e) == s
  {
  }

  /** From a marker that SETNX found to the transaction. */
  function Reading(s: State, c: nat, e: Env): State {
    var t := if e.expires && c in s.calls && s.calls[c].pc.Existing? then Next(s, ExpireMarker) else s;
    Next(Next(t, SecondGet(c, e.getAgainOk)), Query(c, e.queryOk))
  }

  function Allocated(e: Env): Option<Val> {
    if e.convSeq.Some? && e.msgId.Some? then Some(Val(e.msgId.value, e.convSeq.value)) else None
  }

  function Opening(s: State, c: nat, e: Env): State {
    var t := Next(s, Enter(c, e.cached));
    var u := if e.metaOk && e.member then t else Next(t, Refuse(c, !e.metaOk));
    Next(Next(Next(u, FirstGet(c, e.maybeSeen && e.getOk)), Allocate(c, Allocated(e))), PutIfNone(c, e.put))
  }

  lemma ReadingIsSend(s: State, w: World, k: Key, c: nat, v: Val, e: Env)
    requires c in s.calls && s.calls[c] == Call(e.cached, Existing(v)) && Shows(s, w, k)
    ensures var t, w2 := Reading(s, c, e), if e.expires then w.(markers := w.markers - {k}) else w;
      && Shows(t, w2, k) && c in t.calls
      && if e.getAgainOk && k in w2.markers then Answered(t, c, Success(w2.markers[k]))
         else if e.queryOk && k in w2.rows then Answered(t, c, Success(w2.rows[k]))
         else t.calls[c] == Call(e.cached, Inserting(v))
  {
  }

  /** All accesses of one call, with nobody in between. */
  function Alone(s: State, c: nat, e: Env): State {
    Closing(Reading(Opening(s, c, e), c, e), c, e)
  }

  lemma OpeningIsSend(s: State, w: World, k: Key, c: nat, e: Env)
    requires c !in s.calls && Shows(s, w, k)
    ensures var t := Opening(s, c, e);
      && c in t.calls && t.calls[c].cached == e.cached
      && if !e.metaOk then t.calls[c].pc == Ended(Failed, Own) && Shows(t, w, k)
         else if !e.member then t.calls[c].pc == Ended(NotMember, Own) && Shows(t, w, k)
         else if e.cached && e.maybeSeen && e.getOk && k in w.markers
           then t.calls[c].pc == Ended(Success(w.markers[k]), Marker) && Shows(t, w, k)
         else if Allocated(e).None? then t.calls[c].pc == Ended(Failed, Own) && Shows(t, w, k)
         else if !e.cached then t.calls[c].pc == Inserting(Allocated(e).value) && Shows(t, w, k)
         else
           var (w1, found) := PutMarker(w, k, Allocated(e).value, e);
           && Shows(t, w1, k)
           && t.calls[c].pc == if found then Existing(Allocated(e).value) else Inserting(Allocated(e).value)
  {
  }

  /** Once the call is about to insert or has ended. */
  lemma InsertAlone(s: State, w: World, k: Key, c: nat, v: Val, e: Env)
    requires c in s.calls && s.calls[c] == Call(e.cached, Inserting(v)) && Shows(s, w, k)
    ensures var (w', r) := Send.Insert(w, k, v, e);
      var t := Closing(Reading(s, c, e), c, e);
      Shows(t, w', k) && Answered(t, c, r)
  {
    assert Reading(s, c, e) == s;
    ClosingIsInsert(s, w, k, c, v, e);
  }

  lemma EndedAlone(s: State, c: nat, e: Env)
    requires c in s.calls && s.calls[c].pc.Ended?
    ensures Closing(Reading(s, c, e), c, e) == s
  {
    assert Reading(s, c, e) == s;
    EndedStays(s, c, e);
  }

  lemma FoundAlone(s: State, w: World, k: Key, c: nat, v: Val, e: Env)
    requires c in s.calls && s.calls[c] == Call(e.cached, Existing(v)) && Shows(s, w, k)
    ensures var t, w2 := Closing(Reading(s, c, e), c, e), if e.expires then w.(markers := w.markers - {k}) else w;
      var (w', r) :=
        if e.getAgainOk && k in w2.markers then (w2, Success(w2.markers[k]))
        else if e.queryOk && k in w2.rows then (w2, Success(w2.rows[k]))
        else Send.Insert(w2, k, v, e);
      Shows(t, w', k) && Answered(t, c, r)
  {
    ReadingIsSend(s, w, k, c, v, e);
    var u := Reading(s, c, e);
    if u.calls[c].pc.Ended? {
      EndedStays(u, c, e);
    } else {
      ClosingIsInsert(u, if e.expires then w.(markers := w.markers - {k}) else w, k, c, v, e);
    }
  }

  /** Nobody in between: the accesses of one call have exactly the effect and the answer of `Send.SendOnce`. */
  lemma AloneIsSendOnce(s: State, w: World, k: Key, c: nat, e: Env)
    requires c !in s.calls && Shows(s, w, k)
    ensures var (w', r) := SendOnce(w, k, e); Shows(Alone(s, c, e), w', k) && Answered(Alone(s, c, e), c, r)
  {
    OpeningIsSend(s, w, k, c, e);
    var t := Opening(s, c, e);
    match t.calls[c].pc
    case Existing(v) => FoundAlone(t, PutMarker(w, k, v, e).0, k, c, v, e);
    case Inserting(v) => InsertAlone(t, if e.cached then PutMarker(w, k, v, e).0 else w, k, c, v, e);
    case _ => EndedAlone(t, c, e);
  }
}
