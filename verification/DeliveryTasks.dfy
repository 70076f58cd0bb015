/** The two tasks on local_message: the scan that redelivers what is still open, and the cleanup of what is done. */
module DeliveryTasks {
  import opened Common
  import opened Delivery
  import opened DeliveryImpl
  import opened DeliveryServes

  datatype Entry = Entry(status: int, created: int)

  const SCAN_BATCH := 200
  const DELETE_BATCH := 1000

  predicate Doomed(e: Entry, cutoff: int) {
    e.status == 1 && e.created < cutoff
  }

  predicate Open(e: Entry, cutoff: int) {
    e.status == 0 && e.created < cutoff
  }

  /** Some delivered and expired rows have been deleted, and nothing else has changed. */
  ghost predicate Thinned(before: map<RowKey, Entry>, after: map<RowKey, Entry>, cutoff: int) {
    && (forall r | r in after :: r in before && after[r] == before[r])
    && (forall r | r in before && r !in after :: Doomed(before[r], cutoff))
  }

  ghost predicate Clean(t: map<RowKey, Entry>, cutoff: int) {
    forall r | r in t :: !Doomed(t[r], cutoff)
  }

  /** A state of the protocol in which the row is open, with these books, marks and messages. */
  ghost predicate Scans(s: State, books: Books, marks: set<RowKey>, messages: map<RowKey, Row>, row: RowKey) {
    && Inv(s) && s.books == books && s.marks == marks && s.rows == messages
    && row in s.status && s.status[row] == 0
  }

  class LocalMessages {
    var table: map<RowKey, Entry>

    /** DELETE ... WHERE status = 1 AND create_time_ms < cutoff LIMIT limit. */
    method DeleteSome(cutoff: int, limit: nat) returns (n: nat)
      modifies this
      ensures Thinned(old(table), table, cutoff) && |table| == |old(table)| - n
      ensures n <= limit && (n < limit ==> Clean(table, cutoff))
    {
      var todo: set<RowKey> := table.Keys;
      n := 0;
      while todo != {} && n < limit
        invariant todo <= table.Keys && n <= limit
        invariant Thinned(old(table), table, cutoff) && |table| == |old(table)| - n
        invariant forall r | r in table && r !in todo :: !Doomed(table[r], cutoff)
        decreases |todo|
      {
        var r := Next(todo);
        if Doomed(table[r], cutoff) {
          Shrinks(table, r);
          table := table - {r};
          n := n + 1;
        }
        todo := todo - {r};
      }
    }

    /** The loop of deletes ends, and removes exactly the rows with status 1 older than the cutoff. */
    method Cleanup(cutoff: int) returns (total: nat)
      modifies this
      ensures Thinned(old(table), table, cutoff) && Clean(table, cutoff)
      ensures forall r | r in old(table) ::
                r !in table <==> old(table)[r].status == 1 && old(table)[r].created < cutoff
      ensures total == |old(table)| - |table|
    {
      total := 0;
      var more := true;
      while more
        invariant Thinned(old(table), table, cutoff) && total == |old(table)| - |table|
        invariant !more ==> Clean(table, cutoff)
        decreases if more then 1 + |table| else 0
      {
        var n := DeleteSome(cutoff, DELETE_BATCH);
        total := total + n;
        more := n >= DELETE_BATCH;
      }
    }

    /** SELECT ... WHERE status = 0 AND create_time_ms < cutoff LIMIT 200: each open row at most once. */
    method ScanBatch(cutoff: int) returns (batch: seq<RowKey>)
      ensures |batch| <= 200 && forall i, j | 0 <= i < j < |batch| :: batch[i] != batch[j]
      ensures forall r | r in batch :: r in table && table[r].status == 0 && table[r].created < cutoff
      ensures |batch| < 200 ==>
                forall r | r in table && table[r].status == 0 && table[r].created < cutoff :: r in batch
    {
      batch := [];
      var todo: set<RowKey> := table.Keys;
      while todo != {} && |batch| < SCAN_BATCH
        invariant todo <= table.Keys && |batch| <= SCAN_BATCH
        invariant forall i, j | 0 <= i < j < |batch| :: batch[i] != batch[j]
        invariant forall r | r in batch :: r in table && r !in todo && Open(table[r], cutoff)
        invariant forall r | r in table && r !in todo && Open(table[r], cutoff) :: r in batch
        decreases |todo|
      {
        var r := Next(todo);
        if Open(table[r], cutoff) { batch := batch + [r]; }
        todo := todo - {r};
      }
    }

    /** UPDATE local_message SET status = 1 WHERE (conv_id, msg_id) = row AND status = 0. */
    method MarkDone(row: RowKey)
      modifies this
      ensures table == if row in old(table) && old(table)[row].status == 0
                       then old(table)[row := old(table)[row].(status := 1)] else old(table)
    {
      if row in table && table[row].status == 0 { table := table[row := table[row].(status := 1)]; }
    }

    /**
     * `redeliverOne`: the event is rebuilt from the message row and fanned out like a fresh one; a row without
     * a message is marked done and delivers nothing; when the message cannot be loaded (`loads`) nothing happens.
     * From every state of the protocol with these books it does what the run of the protocol's scan does.
     */
    method RedeliverOne(d: Deliverer, messages: map<RowKey, Row>, row: RowKey, loads: bool, lookup: Option<seq<int>>,
                        delivered: seq<bool>, stored: seq<bool>) returns (ok: bool)
      requires d.pend.Valid() && (lookup.Some? ==> |delivered| == |stored| == |lookup.value|)
      modifies this, d, d.pend
      ensures d.pend.Valid() && ok == (loads && row in messages)
      ensures !ok ==> d.Ledger() == old(d.Ledger()) && d.marks == old(d.marks)
      ensures !loads ==> table == old(table)
      ensures loads && !ok ==> table == if row in old(table) && old(table)[row].status == 0
                                 then old(table)[row := old(table)[row].(status := 1)] else old(table)
      ensures ok ==> table == old(table)
      ensures ok && lookup.Some? ==>
        d.Ledger() == FanOut(old(d.Ledger()), PushEvent(row.0, messages[row].seqNo, messages[row].fromUid, row.1),
                             lookup.value, delivered, stored, |lookup.value|)
      ensures ok && lookup.Some? ==> d.marks == if row.1 != 0 then old(d.marks) + {row} else old(d.marks)
      ensures ok && lookup.Some? ==>
                forall s | Scans(s, old(d.Ledger()), old(d.marks), messages, row) ::
                  var t := Delivery.Run(s, Redelivering(s, row, lookup.value, delivered, stored));
                  d.Ledger() == t.books && d.marks == t.marks
      ensures lookup.None? ==> d.Ledger() == old(d.Ledger()) && d.marks == old(d.marks)
    {
      if !loads { return false; }
      ok := row in messages;
      if ok {
        d.Deliver(PushEvent(row.0, messages[row].seqNo, messages[row].fromUid, row.1), lookup, delivered, stored);
        if lookup.Some? {
          forall s | Scans(s, old(d.Ledger()), old(d.marks), messages, row)
            ensures var t := Delivery.Run(s, Redelivering(s, row, lookup.value, delivered, stored));
              d.Ledger() == t.books && d.marks == t.marks
          {
            RedeliveryFansOut(s, row, lookup.value, delivered, stored);
          }
        }
      } else {
        MarkDone(row);
      }
    }
  }

  lemma Shrinks(t: map<RowKey, Entry>, r: RowKey)
    requires r in t
    ensures |t - {r}| == |t| - 1
  {
    assert (t - {r}).Keys == t.Keys - {r};
  }

  /** What the deletes leave is determined: the rows that are still open or too young. */
  lemma CleanIsUnique(before: map<RowKey, Entry>, after: map<RowKey, Entry>, cutoff: int)
    requires Thinned(before, after, cutoff) && Clean(after, cutoff)
    ensures after == map r | r in before && !Doomed(before[r], cutoff) :: before[r]
  {
    assert forall r | r in after :: r in before;
  }
}
