/** The outbox publisher: publishBatch row by row among any other sessions, and the loop that drains the outbox. */
module Publisher {
  import opened Text
  import opened Model
  import opened Machine
  import opened Invariant
  import opened Runs
  import opened Session

  datatype BatchResult = Marked(count: nat) | BatchFailed(count: nat)

  // ---------- the selection ----------

  /** The row of a non-empty set with the least created_at. */
  method Oldest(outbox: map<Id, OutboxRow>, ids: set<Id>) returns (oldest: Id)
    requires ids != {} && ids <= outbox.Keys
    ensures oldest in ids && forall id <- ids :: outbox[oldest].createdAt <= outbox[id].createdAt
  {
    oldest :| oldest in ids;
    var rest := ids - {oldest};
    while rest != {}
      invariant rest <= ids && oldest in ids
      invariant forall id <- ids :: id !in rest ==> outbox[oldest].createdAt <= outbox[id].createdAt
      decreases |rest|
    {
      var id :| id in rest;
      if outbox[id].createdAt < outbox[oldest].createdAt { oldest := id; }
      rest := rest - {id};
    }
  }

  /** SELECT ... WHERE published_at IS NULL ORDER BY created_at LIMIT n FOR UPDATE SKIP LOCKED. */
  method SelectUnpublished(s: State, limit: nat) returns (ids: seq<Id>)
    ensures IsSelection(s, ids, limit)
  {
    hide Locks;
    var rest := set id <- s.db.outbox | Available(s, id);
    ids := [];
    while |ids| < limit && rest != {}
      invariant |ids| <= limit && rest <= s.db.outbox.Keys
      invariant forall id <- ids :: Available(s, id) && id !in rest
      invariant forall id <- s.db.outbox :: Available(s, id) && id !in ids ==> id in rest
      invariant forall i, k | 0 <= i < k < |ids| :: ids[i] != ids[k]
      invariant forall i, k | 0 <= i < k < |ids| :: s.db.outbox[ids[i]].createdAt <= s.db.outbox[ids[k]].createdAt
      invariant forall chosen <- ids, id <- rest :: s.db.outbox[chosen].createdAt <= s.db.outbox[id].createdAt
      invariant forall id <- rest :: Available(s, id)
      decreases |rest|
    {
      var oldest := Oldest(s.db.outbox, rest);
      ids, rest := ids + [oldest], rest - {oldest};
    }
  }

  // ---------- the steps for one row ----------

  lemma RowSteps(w: Wiring, s: State, tx: TxId, t: Tx)
    requires tx in s.txs && s.txs[tx] == t && t.Batch? && t.next < |t.pending|
    ensures t.phase.Ready? && w.verifies(Current(t).value) ==>
      Step(w, s, VerifyNext(tx)) == Keep(s, tx, t.(phase := Verified))
    ensures t.phase.Ready? && !w.verifies(Current(t).value) ==>
      Step(w, s, VerifyNext(tx)) == End(s, tx, Unverified(Current(t).key))
    ensures t.phase.Verified? ==>
      Step(w, s, Send(tx))
      == Keep(s, tx, t.(phase := Sent)).(log := s.log + [Current(t)], handed := s.handed + {Current(t)})
    ensures t.phase.Sent? ==>
      Step(w, s, Acknowledge(tx)) == Keep(s, tx, t.(phase := Acknowledged)).(acked := s.acked + {Current(t).key})
    ensures t.phase.Acknowledged? ==>
      Step(w, s, MarkPublished(tx)) == Keep(s, tx, t.(phase := Ready, next := t.next + 1))
  {
  }

  lemma HandOverStep(w: Wiring, s: State, tx: TxId, t: Tx)
    requires tx in s.txs && s.txs[tx] == t && t.Batch? && t.next < |t.pending| && t.phase.Verified?
    ensures Step(w, s, HandOver(tx)) == s.(handed := s.handed + {Current(t)})
  {
  }

  /** What the transaction is after a statement of its batch ran. */
  lemma RowStepRan(w: Wiring, t: Tx, e: Event, s: State)
    requires Ran(w, t, e, s) && t.Batch? && t.next < |t.pending|
    ensures e.VerifyNext? && t.phase.Ready? && w.verifies(Current(t).value) ==>
      e.tx in s.txs && s.txs[e.tx] == t.(phase := Verified)
    ensures e.VerifyNext? && t.phase.Ready? && !w.verifies(Current(t).value) ==>
      e.tx !in s.txs && e.tx in s.outcomes && s.outcomes[e.tx] == Unverified(Current(t).key)
    ensures e.Send? && t.phase.Verified? ==> e.tx in s.txs && s.txs[e.tx] == t.(phase := Sent)
    ensures e.Acknowledge? && t.phase.Sent? ==> e.tx in s.txs && s.txs[e.tx] == t.(phase := Acknowledged)
    ensures e.MarkPublished? && t.phase.Acknowledged? ==>
      e.tx in s.txs && s.txs[e.tx] == t.(phase := Ready, next := t.next + 1)
  {
    hide Step;
    var s0: State :| e.tx in s0.txs && s0.txs[e.tx] == t && s == Step(w, s0, e) && s != s0;
    RowSteps(w, s0, e.tx, t);
  }

  lemma SelectStep(w: Wiring, s: State, tx: TxId, ids: seq<Id>)
    requires tx in s.txs && s.txs[tx].Draining? && IsSelection(s, ids, w.batchSize)
    ensures forall id <- ids :: id in s.db.outbox
    ensures Step(w, s, SelectBatch(tx, ids)) == Keep(s, tx, Batch(s.txs[tx].now, Scan(s.db, ids), 0, Ready))
  {
    hide Scan;
  }

  lemma CommitBatchDb(w: Wiring, s: State, tx: TxId)
    requires tx in s.txs && s.txs[tx].Batch? && s.txs[tx].phase.Ready? && s.txs[tx].next == |s.txs[tx].pending|
    ensures Step(w, s, CommitBatch(tx, true)).db
            == s.db.(outbox := MarksCommitted(s.db.outbox, s.txs[tx].pending, s.txs[tx].now))
  {
    hide MarksCommitted;
  }

  // ---------- what an undisturbed batch does ----------

  function Records(pending: seq<Pending>): (records: seq<Record>)
    ensures |records| == |pending|
  {
    seq(|pending|, i requires 0 <= i < |pending| => Record(pending[i].topic, pending[i].id, pending[i].payload))
  }

  /** How many rows from the front verify. */
  function Accepted(w: Wiring, pending: seq<Pending>): (n: nat)
    ensures n <= |pending| && forall k | 0 <= k < n :: w.verifies(pending[k].payload)
    ensures n < |pending| ==> !w.verifies(pending[n].payload)
  {
    if pending == [] || !w.verifies(pending[0].payload) then 0 else 1 + Accepted(w, pending[1..])
  }

  class Worker {
    const database: Database

    constructor (database: Database)
      ensures this.database == database
    {
      this.database := database;
    }

    /** Verify, produce, wait for the acknowledgement, mark. */
    method PublishNext(tx: TxId) returns (ok: bool)
      requires database.Inside(tx) && database.state.txs[tx].Batch?
      requires database.state.txs[tx].phase.Ready? && database.state.txs[tx].next < |database.state.txs[tx].pending|
      modifies database
      ensures old(database.trace) <= database.trace
      ensures forall first :: tx < first && old(database.Reserved(first)) ==> database.Reserved(first)
      ensures var t := old(database.state.txs[tx]);
              if ok then database.Inside(tx) && database.state.txs[tx] == t.(next := t.next + 1)
              else database.Ended(tx, Failed) || database.Ended(tx, Unverified(Current(t).key))
      ensures var t := old(database.state.txs[tx]);
              old(database.Undisturbed({tx})) ==>
                && ok == database.wiring.verifies(Current(t).value) && database.Undisturbed(if ok then {tx} else {})
                && database.state.db == old(database.state.db)
                && database.state.log == old(database.state.log) + if ok then [Current(t)] else []
    {
      hide Step, Run, UncommittedBy, Database.CalmFrom, Database.Foreign, Database.Reserved;
      ok := Check(tx);
      if !ok { return false; }
      ok := Produce(tx);
      if !ok { return false; }
      ok := Mark(tx);
    }

    /** Fail closed: a row that does not verify ends the batch. */
    method Check(tx: TxId) returns (ok: bool)
      requires database.Inside(tx) && database.state.txs[tx].Batch?
      requires database.state.txs[tx].phase.Ready? && database.state.txs[tx].next < |database.state.txs[tx].pending|
      modifies database
      ensures old(database.trace) <= database.trace
      ensures forall first :: tx < first && old(database.Reserved(first)) ==> database.Reserved(first)
      ensures var t := old(database.state.txs[tx]);
              if ok then
                && database.Inside(tx) && database.state.txs[tx] == t.(phase := Verified)
                && database.wiring.verifies(Current(t).value)
              else database.Ended(tx, Failed) || database.Ended(tx, Unverified(Current(t).key))
      ensures var t := old(database.state.txs[tx]);
              old(database.Undisturbed({tx})) ==>
                && ok == database.wiring.verifies(Current(t).value) && database.Undisturbed(if ok then {tx} else {})
                && database.state.db == old(database.state.db) && database.state.log == old(database.state.log)
    {
      hide Step, Run, Ran, UncommittedBy, Database.CalmFrom, Database.Foreign, Database.Reserved;
      ghost var t := database.state.txs[tx];
      RowSteps(database.wiring, database.state, tx, t);
      ok := database.Execute(VerifyNext(tx));
      if !ok {
        database.Rollback(tx);
        return false;
      }
      RowStepRan(database.wiring, t, VerifyNext(tx), database.state);
      return tx in database.state.txs;
    }

    /** UPDATE ... SET published_at = now(). */
    method Mark(tx: TxId) returns (ok: bool)
      requires database.Inside(tx) && database.state.txs[tx].Batch?
      requires database.state.txs[tx].phase.Acknowledged?
               && database.state.txs[tx].next < |database.state.txs[tx].pending|
      modifies database
      ensures old(database.trace) <= database.trace
      ensures forall first :: tx < first && old(database.Reserved(first)) ==> database.Reserved(first)
      ensures var t := old(database.state.txs[tx]);
              if ok then database.Inside(tx) && database.state.txs[tx] == t.(phase := Phase.Ready, next := t.next + 1)
              else database.Ended(tx, Failed)
      ensures old(database.Undisturbed({tx})) ==>
                && ok && database.Undisturbed({tx})
                && database.state.db == old(database.state.db) && database.state.log == old(database.state.log)
    {
      hide Step, Run, Ran, UncommittedBy, Database.CalmFrom, Database.Foreign, Database.Reserved;
      ghost var t := database.state.txs[tx];
      RowSteps(database.wiring, database.state, tx, t);
      ok := database.Execute(MarkPublished(tx));
      if !ok {
        database.Rollback(tx);
        return false;
      }
      RowStepRan(database.wiring, t, MarkPublished(tx), database.state);
      return true;
    }

    /** The producer is given the current record. From now on it may land, whatever becomes of this transaction. */
    method Offer(tx: TxId) returns (ok: bool)
      requires database.Inside(tx) && database.state.txs[tx].Batch?
      requires database.state.txs[tx].phase.Verified? && database.state.txs[tx].next < |database.state.txs[tx].pending|
      modifies database
      ensures old(database.trace) <= database.trace
      ensures forall first :: tx < first && old(database.Reserved(first)) ==> database.Reserved(first)
      ensures var t := old(database.state.txs[tx]);
              if ok then
                database.Inside(tx) && database.state.txs[tx] == t && Current(t) in database.state.handed
              else database.Ended(tx, Failed)
      ensures old(database.Undisturbed({tx})) ==>
        && ok && database.Undisturbed({tx})
        && database.state.db == old(database.state.db) && database.state.log == old(database.state.log)
    {
      hide Step, Run, UncommittedBy, Database.CalmFrom, Database.Foreign, Database.Reserved;
      var turn := database.Yield(tx);
      if turn.fails {
        database.Rollback(tx);
        return false;
      }
      HandOverStep(database.wiring, database.state, tx, database.state.txs[tx]);
      database.Perform(HandOver(tx));
      return true;
    }

    /** ProduceSync: the producer is given the record, then the record reaches the log, then the acknowledgement
        arrives. A failure on the way leaves the record with the producer, to land at any later time, or in the log. */
    method Produce(tx: TxId) returns (ok: bool)
      requires database.Inside(tx) && database.state.txs[tx].Batch?
      requires database.state.txs[tx].phase.Verified? && database.state.txs[tx].next < |database.state.txs[tx].pending|
      modifies database
      ensures old(database.trace) <= database.trace
      ensures forall first :: tx < first && old(database.Reserved(first)) ==> database.Reserved(first)
      ensures var t := old(database.state.txs[tx]);
              if ok then database.Inside(tx) && database.state.txs[tx] == t.(phase := Acknowledged)
              else database.Ended(tx, Failed)
      ensures var t := old(database.state.txs[tx]);
              old(database.Undisturbed({tx})) ==>
                && ok && database.Undisturbed({tx}) && database.state.db == old(database.state.db)
                && database.state.log == old(database.state.log) + [Current(t)]
    {
      hide Step, Run, Ran, UncommittedBy, Database.CalmFrom, Database.Foreign, Database.Reserved;
      ghost var t := database.state.txs[tx];
      ok := Offer(tx);
      if !ok { return false; }
      RowSteps(database.wiring, database.state, tx, t);
      ok := database.Execute(Send(tx));
      if !ok {
        database.Rollback(tx);
        return false;
      }
      RowStepRan(database.wiring, t, Send(tx), database.state);
      ok := Await(tx);
    }

    /** The acknowledgement arrives, or the record is in the log and the batch ends. */
    method Await(tx: TxId) returns (ok: bool)
      requires database.Inside(tx) && database.state.txs[tx].Batch?
      requires database.state.txs[tx].phase.Sent? && database.state.txs[tx].next < |database.state.txs[tx].pending|
      modifies database
      ensures old(database.trace) <= database.trace
      ensures forall first :: tx < first && old(database.Reserved(first)) ==> database.Reserved(first)
      ensures var t := old(database.state.txs[tx]);
              if ok then database.Inside(tx) && database.state.txs[tx] == t.(phase := Acknowledged)
              else database.Ended(tx, Failed)
      ensures old(database.Undisturbed({tx})) ==>
        && ok && database.Undisturbed({tx})
        && database.state.db == old(database.state.db) && database.state.log == old(database.state.log)
    {
      hide Step, Run, Ran, UncommittedBy, Database.CalmFrom, Database.Foreign, Database.Reserved;
      ghost var t := database.state.txs[tx];
      RowSteps(database.wiring, database.state, tx, t);
      ok := database.Execute(Acknowledge(tx));
      if !ok {
        database.Rollback(tx);
        return false;
      }
      RowStepRan(database.wiring, t, Acknowledge(tx), database.state);
      return true;
    }

    /** publishBatch. A failed call returns how many rows it had marked before its rollback. */
    method PublishBatch(tx: TxId, at: Time) returns (r: BatchResult)
      requires database.Valid() && database.Foreign(tx) && NewTo(database.trace, tx)
      modifies database
      ensures database.Valid() && old(database.trace) <= database.trace && tx !in database.state.txs
      ensures forall first :: tx < first && old(database.Reserved(first)) ==> database.Reserved(first)
      ensures r.Marked? ==> database.Ended(tx, Published(r.count))
      ensures r.BatchFailed? ==>
        Unused(database.state, tx) || database.Ended(tx, Failed) || exists id :: database.Ended(tx, Unverified(id))
      ensures old(database.Undisturbed({})) ==>
        && database.Undisturbed({})
        && exists ids :: BatchEffect(database.wiring, old(database.state), ids, at, r, database.state)
    {
      hide Step, Run, IsSelection, NewTo, UncommittedBy, Database.CalmFrom, Database.Foreign, Database.Reserved, Scan,
        BatchEffect, RowsEffect, Took;
      ghost var s0, calm := database.state, database.Undisturbed({});
      var ok := database.Begin(BeginBatch(tx, at));
      if !ok {
        NewIsUnused(database.wiring, database.trace, tx);
        return BatchFailed(0);
      }
      ghost var begun := database.state;
      ok := Take(tx);
      if !ok { return BatchFailed(0); }
      ghost var taken := database.state;
      r := PublishRows(tx);
      if calm { EffectKnown(database.wiring, s0, begun, taken, tx, at, r, database.state); }
    }

    /** The locking SELECT. */
    method Take(tx: TxId) returns (ok: bool)
      requires database.Inside(tx) && database.state.txs[tx].Draining?
      modifies database
      ensures old(database.trace) <= database.trace
      ensures forall first :: tx < first && old(database.Reserved(first)) ==> database.Reserved(first)
      ensures if ok then
                && database.Inside(tx) && database.state.txs[tx].Batch?
                && database.state.txs[tx].phase.Ready? && database.state.txs[tx].next == 0
              else database.Ended(tx, Failed)
      ensures var s := old(database.state);
              old(database.Undisturbed({tx})) ==>
                && ok && database.Undisturbed({tx}) && database.state.db == s.db && database.state.log == s.log
                && exists ids :: Took(database.wiring, s, ids, s.txs[tx].now, database.state.txs[tx])
    {
      hide Step, Run, IsSelection, UncommittedBy, Database.CalmFrom, Database.Foreign, Database.Reserved, Scan;
      var turn := database.Yield(tx);
      if turn.fails {
        database.Rollback(tx);
        return false;
      }
      var ids := SelectUnpublished(database.state, database.wiring.batchSize);
      ghost var s := database.state;
      SelectStep(database.wiring, s, tx, ids);
      database.Perform(SelectBatch(tx, ids));
      assert Took(database.wiring, s, ids, s.txs[tx].now, database.state.txs[tx]);
      return true;
    }

    /** The loop over the selected rows, and the commit. */
    method PublishRows(tx: TxId) returns (r: BatchResult)
      requires database.Inside(tx) && database.state.txs[tx].Batch?
      requires database.state.txs[tx].phase.Ready? && database.state.txs[tx].next == 0
      modifies database
      ensures old(database.trace) <= database.trace
      ensures forall first :: tx < first && old(database.Reserved(first)) ==> database.Reserved(first)
      ensures if r.Marked? then database.Ended(tx, Published(r.count))
              else database.Ended(tx, Failed) || exists id :: database.Ended(tx, Unverified(id))
      ensures var t := old(database.state.txs[tx]);
              old(database.Undisturbed({tx})) ==>
                database.Undisturbed({}) && RowsEffect(database.wiring, old(database.state), t.pending, t.now, r,
                  database.state)
    {
      hide Step, Run, UncommittedBy, Database.CalmFrom, Database.Foreign, Database.Reserved, Progress, RowsEffect,
        Accepted;
      ghost var w, s0, calm, t := database.wiring, database.state, database.Undisturbed({tx}), database.state.txs[tx];
      var pending, published := database.state.txs[tx].pending, 0;
      ProgressStart(w, s0, pending);
      while published < |pending|
        invariant 0 <= published <= |pending| && old(database.trace) <= database.trace
        invariant database.Inside(tx) && database.state.txs[tx] == t.(next := published)
        invariant forall first :: tx < first && old(database.Reserved(first)) ==> database.Reserved(first)
        invariant calm ==> database.Undisturbed({tx}) && Progress(w, s0, pending, published, database.state)
      {
        ghost var s1 := database.state;
        var ok := PublishNext(tx);
        if calm { ProgressNext(w, s0, pending, published, s1, ok, database.state); }
        if !ok { return BatchFailed(published); }
        published := published + 1;
      }
      CommitStep(w, database.state, CommitBatch(tx, true));
      CommitBatchDb(w, database.state, tx);
      if calm { ProgressEnd(w, s0, pending, t.now, database.state, Step(w, database.state, CommitBatch(tx, true))); }
      var ok := database.Commit(CommitBatch(tx, true));
      if !ok { return BatchFailed(0); }
      return Marked(published);
    }

    /** The loop of run: batches until one fails or, here, for a number of rounds; it sleeps after an empty batch.
        Undisturbed, with rows that all verify, it marks every row, sends each exactly once, and needs exactly as
        many non-empty batches as the row count divided by the batch size, rounded up. */
    method Drain(first: TxId, now: nat -> Time, rounds: nat) returns (failed: bool, batches: nat)
      requires database.Valid() && database.Reserved(first) && database.wiring.batchSize > 0
      modifies database
      ensures database.Valid() && old(database.trace) <= database.trace
      ensures old(database.Undisturbed({})) && AllVerify(database.wiring, old(database.state.db)) ==>
        var n := |Unpublished(old(database.state.db))|;
        && !failed
        && (Ceiling(n, database.wiring.batchSize) <= rounds ==>
              && Unpublished(database.state.db) == {} && batches == Ceiling(n, database.wiring.batchSize)
              && SameEvents(old(database.state.db), database.state.db)
              && SentOnce(old(database.state.db), Unpublished(old(database.state.db)), old(database.state.log),
                          database.state.log))
    {
      hide Run, Step, Database.CalmFrom, Database.Foreign, NewTo, BatchEffect, AllVerify, Unpublished, DrainedSoFar,
        SentOnce, SameEvents, Reachable, Inv, Keyed;
      batches := 0;
      ghost var w, s0, calm := database.wiring, database.state, database.Undisturbed({})
          && AllVerify(database.wiring, database.state.db);
      DrainStart(w, s0);
      var round := 0;
      while round < rounds
        invariant 0 <= round <= rounds && database.Valid() && old(database.trace) <= database.trace
        invariant database.Reserved(first + round)
        invariant calm ==> database.Undisturbed({}) && DrainedSoFar(w, s0, database.state, round, batches)
      {
        ReservedNext(first + round);
        ghost var s1 := database.state;
        database.ValidIsReachable();
        ReachableIsKeyed(w, s1);
        var r := PublishBatch(first + round, now(round));
        if calm { DrainNext(w, s0, s1, round, batches, now(round), r, database.state); }
        if r.BatchFailed? { return true, batches; }
        if r.count == 0 {
          var _ := database.Yield(first + round);
        } else {
          batches := batches + 1;
        }
        round := round + 1;
      }
      if calm { DrainEnd(w, s0, database.state, rounds, batches); }
      return false, batches;
    }

    lemma ReservedNext(first: TxId)
      requires database.Reserved(first)
      ensures database.Foreign(first) && NewTo(database.trace, first) && database.Reserved(first + 1)
    {
      hide NewTo, Database.Foreign;
    }
  }

  // ---------- draining ----------

  function Unpublished(db: Db): set<Id> {
    set id <- db.outbox | db.outbox[id].publishedAt.None?
  }

  predicate AllVerify(w: Wiring, db: Db) {
    forall id <- db.outbox :: db.outbox[id].publishedAt.None? ==> w.verifies(db.outbox[id].payload)
  }

  function Ceiling(n: nat, b: nat): nat
    requires b > 0
  {
    (n + b - 1) / b
  }

  function Keys(records: seq<Record>): (keys: seq<Id>)
    ensures |keys| == |records|
  {
    seq(|records|, i requires 0 <= i < |records| => records[i].key)
  }

  /** The log grew by the records of these rows, one each. */
  ghost predicate SentOnce(db: Db, rows: set<Id>, before: seq<Record>, after: seq<Record>) {
    && before <= after
    && multiset(Keys(after[|before|..])) == multiset(rows)
    && forall r <- after[|before|..] :: r.key in db.outbox && r == RecordOf(db.outbox[r.key])
  }

  /** The same tables, but for the marks on the events. */
  predicate SameEvents(db: Db, db': Db) {
    && db'.packages == db.packages && db'.history == db.history && db'.outbox.Keys == db.outbox.Keys
    && forall id <- db.outbox :: db'.outbox[id].(publishedAt := db.outbox[id].publishedAt) == db.outbox[id]
  }

  lemma SentTogether(db: Db, db': Db, rows: set<Id>, more: set<Id>, a: seq<Record>, b: seq<Record>, c: seq<Record>)
    requires SentOnce(db, rows, a, b) && SentOnce(db', more, b, c) && SameEvents(db, db') && rows !! more
    ensures SentOnce(db, rows + more, a, c)
  {
    assert c[|a|..] == b[|a|..] + c[|b|..];
    assert Keys(c[|a|..]) == Keys(b[|a|..]) + Keys(c[|b|..]);
    assert multiset(rows + more) == multiset(rows) + multiset(more);
    forall r | r in c[|b|..] ensures r.key in db.outbox && r == RecordOf(db.outbox[r.key]) {
      assert r.key in db'.outbox && r == RecordOf(db'.outbox[r.key]);
    }
  }

  /** All batches so far were full, or nothing is left; each row taken was sent once. */
  ghost predicate DrainedSoFar(w: Wiring, s0: State, s: State, round: nat, batches: nat)
    requires w.batchSize > 0
  {
    var n, left := |Unpublished(s0.db)|, |Unpublished(s.db)|;
    && AllVerify(w, s.db) && SameEvents(s0.db, s.db) && Unpublished(s.db) <= Unpublished(s0.db)
    && SentOnce(s0.db, Unpublished(s0.db) - Unpublished(s.db), s0.log, s.log)
    && if left == 0 then batches == Ceiling(n, w.batchSize) else batches == round && left == n - batches * w.batchSize
  }

  lemma DrainStart(w: Wiring, s: State)
    requires w.batchSize > 0
    ensures AllVerify(w, s.db) ==> DrainedSoFar(w, s, s, 0, 0)
  {
    hide AllVerify, Unpublished;
    assert Unpublished(s.db) - Unpublished(s.db) == {} && s.log[|s.log|..] == [] && Keys([]) == [];
    assert multiset(Keys(s.log[|s.log|..])) == multiset({});
  }

  lemma Quotient(m: nat, b: nat, q: nat, r: nat)
    requires b > 0 && m == q * b + r
    ensures m / b >= q && (r < b ==> m / b == q)
  {
    var d := m / b - q;
    assert d * b == r - m % b;
    assert (d >= 1 ==> d * b >= b) && (d <= -1 ==> d * b + b <= 0);
  }

  /** With left rows still unpublished after k full batches of b. */
  lemma BatchesNeeded(n: nat, b: nat, k: nat, left: nat)
    requires b > 0 && n == k * b + left && left > 0
    ensures Ceiling(n, b) >= k + 1 && (left <= b ==> Ceiling(n, b) == k + 1)
  {
    assert n + b - 1 == (k + 1) * b + (left - 1);
    Quotient(n + b - 1, b, k + 1, left - 1);
  }

  lemma DrainNext(w: Wiring, s0: State, s: State, round: nat, batches: nat, at: Time, r: BatchResult, s': State)
    requires w.batchSize > 0 && s.txs == map[] && Keyed(s.db) && DrainedSoFar(w, s0, s, round, batches)
    requires exists ids :: BatchEffect(w, s, ids, at, r, s')
    ensures r.Marked? && DrainedSoFar(w, s0, s', round + 1, if r.count == 0 then batches else batches + 1)
  {
    hide BatchEffect, AllVerify, Unpublished, SentOnce, SameEvents;
    var ids :| BatchEffect(w, s, ids, at, r, s');
    BatchTakes(w, s, ids, at, r, s');
    var n, b, left := |Unpublished(s0.db)|, w.batchSize, |Unpublished(s.db)|;
    if left > 0 { BatchesNeeded(n, b, batches, left); }
    assert (batches + 1) * b == batches * b + b;
    var free0, free, free' := Unpublished(s0.db), Unpublished(s.db), Unpublished(s'.db);
    SameEventsTransitive(s0.db, s.db, s'.db);
    SentTogether(s0.db, s.db, free0 - free, free - free', s0.log, s.log, s'.log);
    assert (free0 - free) + (free - free') == free0 - free';
  }

  lemma SameEventsTransitive(a: Db, b: Db, c: Db)
    requires SameEvents(a, b) && SameEvents(b, c)
    ensures SameEvents(a, c)
  {
  }

  lemma DrainEnd(w: Wiring, s0: State, s: State, rounds: nat, batches: nat)
    requires w.batchSize > 0 && DrainedSoFar(w, s0, s, rounds, batches)
    ensures var n := |Unpublished(s0.db)|; Ceiling(n, w.batchSize) <= rounds ==>
              && Unpublished(s.db) == {} && batches == Ceiling(n, w.batchSize)
              && SameEvents(s0.db, s.db) && SentOnce(s0.db, Unpublished(s0.db), s0.log, s.log)
  {
    hide AllVerify, SentOnce, SameEvents;
    var n, left := |Unpublished(s0.db)|, |Unpublished(s.db)|;
    if left > 0 {
      BatchesNeeded(n, w.batchSize, batches, left);
    } else {
      assert Unpublished(s0.db) - Unpublished(s.db) == Unpublished(s0.db);
    }
  }

  /** The primary key of the outbox is the event's own id. */
  predicate Keyed(db: Db) {
    forall id <- db.outbox :: db.outbox[id].id == id
  }

  lemma ReachableIsKeyed(w: Wiring, s: State)
    requires Reachable(w, s)
    ensures Keyed(s.db)
  {
    hide Reachable, PackagesOk, HistoryOk, EventOk, SameRow, EventsState, AllStated;
    ReachableDb(w, s);
  }

  /** An undisturbed batch takes as many of the unpublished rows as it can hold, and sends each of them once. */
  lemma BatchTakes(w: Wiring, s: State, ids: seq<Id>, at: Time, r: BatchResult, s': State)
    requires s.txs == map[] && Keyed(s.db) && AllVerify(w, s.db) && BatchEffect(w, s, ids, at, r, s')
    ensures var left := |Unpublished(s.db)|; var taken := if left < w.batchSize then left else w.batchSize;
            && r == Marked(taken) && |Unpublished(s'.db)| == left - taken && AllVerify(w, s'.db)
            && Unpublished(s'.db) <= Unpublished(s.db) && SameEvents(s.db, s'.db)
            && SentOnce(s.db, Unpublished(s.db) - Unpublished(s'.db), s.log, s'.log)
  {
    hide SentOnce, SameEvents, IsSelection, RowsEffect, MarksCommitted, Scan;
    AllAccepted(w, s, ids, at, r, s');
    SelectionIsPrefix(w, s, ids);
    MarkedRows(s.db, ids, at);
    BatchSent(s.db, ids, s.log);
    assert Unpublished(s.db) - (Unpublished(s.db) - IdSet(ids)) == IdSet(ids);
  }

  /** What an undisturbed batch leaves, row by row. Marked: every selected row carries the batch's time, no other row
      changed, and the log grew by each one's topic, id and payload, in order. Failed: the row after those sent does not
      verify, and no row is marked. */
  lemma BatchLeaves(w: Wiring, s: State, ids: seq<Id>, at: Time, r: BatchResult, s': State)
    requires BatchEffect(w, s, ids, at, r, s')
    ensures forall id <- ids :: id in s.db.outbox && s.db.outbox[id].publishedAt.None?
    ensures r.count <= |ids| && (r.Marked? ==> r.count == |ids|)
    ensures s'.log == s.log + seq(r.count, i requires 0 <= i < r.count =>
      Record(s.db.outbox[ids[i]].topic, ids[i], s.db.outbox[ids[i]].payload))
    ensures forall i | 0 <= i < r.count :: w.verifies(s.db.outbox[ids[i]].payload)
    ensures r.BatchFailed? ==>
      r.count < |ids| && !w.verifies(s.db.outbox[ids[r.count]].payload) && s'.db == s.db
    ensures r.Marked? ==>
      && s'.db.packages == s.db.packages && s'.db.history == s.db.history && s'.db.outbox.Keys == s.db.outbox.Keys
      && forall id <- s.db.outbox ::
           s'.db.outbox[id] == if id in ids then s.db.outbox[id].(publishedAt := Some(at)) else s.db.outbox[id]
  {
    var pending := Scan(s.db, ids);
    forall id | id in ids ensures s.db.outbox[id].publishedAt.None? { assert Available(s, id); }
    hide IsSelection, Accepted;
    assert r.count == Accepted(w, pending);
    assert Records(pending[..r.count]) == seq(r.count, i requires 0 <= i < r.count =>
      Record(s.db.outbox[ids[i]].topic, ids[i], s.db.outbox[ids[i]].payload));
    forall id ensures Holds(pending, id) <==> id in ids {
      if id in ids {
        var k :| 0 <= k < |ids| && ids[k] == id;
        assert pending[k].id == id;
      }
    }
  }

  lemma AllAccepted(w: Wiring, s: State, ids: seq<Id>, at: Time, r: BatchResult, s': State)
    requires AllVerify(w, s.db) && BatchEffect(w, s, ids, at, r, s')
    ensures (forall id <- ids :: id in s.db.outbox) && (forall i, k | 0 <= i < k < |ids| :: ids[i] != ids[k])
    ensures r == Marked(|ids|) && s'.log == s.log + Records(Scan(s.db, ids))
    ensures s'.db == s.db.(outbox := MarksCommitted(s.db.outbox, Scan(s.db, ids), at))
  {
    hide MarksCommitted;
    var pending := Scan(s.db, ids);
    forall k | 0 <= k < |pending| ensures w.verifies(pending[k].payload) { assert Available(s, ids[k]); }
    assert pending[..|pending|] == pending;
  }

  lemma BatchSent(db: Db, ids: seq<Id>, log: seq<Record>)
    requires (forall id <- ids :: id in db.outbox && db.outbox[id].id == id)
    requires forall i, k | 0 <= i < k < |ids| :: ids[i] != ids[k]
    ensures SentOnce(db, IdSet(ids), log, log + Records(Scan(db, ids)))
  {
    var records := Records(Scan(db, ids));
    assert (log + records)[|log|..] == records && Keys(records) == ids;
    DistinctMultiset(ids);
    forall r | r in records ensures r.key in db.outbox && r == RecordOf(db.outbox[r.key]) {
      var i :| 0 <= i < |records| && records[i] == r;
    }
  }

  lemma {:induction false} DistinctMultiset(ids: seq<Id>)
    requires forall i, k | 0 <= i < k < |ids| :: ids[i] != ids[k]
    ensures multiset(ids) == multiset(IdSet(ids))
  {
    if ids != [] {
      var rest := ids[1..];
      DistinctMultiset(rest);
      assert ids == [ids[0]] + rest && ids[0] !in rest;
      assert IdSet(ids) == {ids[0]} + IdSet(rest);
    }
  }

  lemma SelectionIsPrefix(w: Wiring, s: State, ids: seq<Id>)
    requires s.txs == map[] && IsSelection(s, ids, w.batchSize)
    ensures |ids| == if |Unpublished(s.db)| < w.batchSize then |Unpublished(s.db)| else w.batchSize
    ensures IdSet(ids) <= Unpublished(s.db) && |IdSet(ids)| == |ids|
  {
    var free := Unpublished(s.db);
    assert forall id :: Available(s, id) <==> id in free;
    DistinctSize(ids);
    SubsetSize(IdSet(ids), free);
    if |ids| < w.batchSize {
      assert IdSet(ids) == free;
    }
  }

  function IdSet(ids: seq<Id>): set<Id> {
    set id <- ids
  }

  lemma {:induction false} DistinctSize(ids: seq<Id>)
    requires forall i, k | 0 <= i < k < |ids| :: ids[i] != ids[k]
    ensures |IdSet(ids)| == |ids|
  {
    if ids != [] {
      DistinctSize(ids[1..]);
      assert IdSet(ids) == IdSet(ids[1..]) + {ids[0]};
      assert ids[0] !in ids[1..];
    }
  }

  lemma SubsetSize(a: set<Id>, b: set<Id>)
    requires a <= b
    ensures |a| <= |b| && |b - a| == |b| - |a|
  {
    assert b == a + (b - a);
  }

  lemma HeldRows(db: Db, ids: seq<Id>)
    requires forall id <- ids :: id in db.outbox
    ensures forall id :: Holds(Scan(db, ids), id) <==> id in ids
  {
    var pending := Scan(db, ids);
    forall id ensures Holds(pending, id) <==> id in ids {
      if id in ids {
        var i :| 0 <= i < |ids| && ids[i] == id;
        assert pending[i].id == id;
      }
    }
  }

  lemma MarkedRows(db: Db, ids: seq<Id>, at: Time)
    requires (forall id <- ids :: id in db.outbox) && IdSet(ids) <= Unpublished(db)
    ensures var db' := db.(outbox := MarksCommitted(db.outbox, Scan(db, ids), at));
            && SameEvents(db, db') && db'.outbox.Keys == db.outbox.Keys
            && Unpublished(db') == Unpublished(db) - IdSet(ids)
              && |Unpublished(db')| == |Unpublished(db)| - |IdSet(ids)|
            && forall id <- db'.outbox :: db'.outbox[id].payload == db.outbox[id].payload
                                         && (db'.outbox[id].publishedAt.None? ==> db.outbox[id].publishedAt.None?)
  {
    HeldRows(db, ids);
    hide Holds, Scan;
    SubsetSize(IdSet(ids), Unpublished(db));
    assert Unpublished(db.(outbox := MarksCommitted(db.outbox, Scan(db, ids), at))) == Unpublished(db) - IdSet(ids);
  }

  /** The first k rows verified and are in the log; the tables are as they were. */
  ghost predicate Progress(w: Wiring, s0: State, pending: seq<Pending>, k: nat, s: State)
    requires k <= |pending|
  {
    s.db == s0.db && s.log == s0.log + Records(pending[..k]) && k <= Accepted(w, pending)
  }

  lemma ProgressStart(w: Wiring, s: State, pending: seq<Pending>)
    ensures Progress(w, s, pending, 0, s)
  {
  }

  lemma ProgressNext(w: Wiring, s0: State, pending: seq<Pending>, k: nat, s: State, ok: bool, s': State)
    requires k < |pending| && Progress(w, s0, pending, k, s) && ok == w.verifies(pending[k].payload) && s'.db == s.db
    requires s'.log == s.log + if ok then [Record(pending[k].topic, pending[k].id, pending[k].payload)] else []
    ensures if ok then Progress(w, s0, pending, k + 1, s') else forall at ::
      RowsEffect(w, s0, pending, at, BatchFailed(k), s')
  {
    AcceptedFurther(w, pending, k);
    assert Records(pending[..k + 1]) == Records(pending[..k]) + [Record(pending[k].topic, pending[k].id,
           pending[k].payload)];
  }

  lemma ProgressEnd(w: Wiring, s0: State, pending: seq<Pending>, at: Time, s: State, s': State)
    requires Progress(w, s0, pending, |pending|, s)
    requires s'.log == s.log && s'.db == s.db.(outbox := MarksCommitted(s.db.outbox, pending, at))
    ensures RowsEffect(w, s0, pending, at, Marked(|pending|), s')
  {
    hide MarksCommitted;
    assert pending[..|pending|] == pending;
  }

  lemma {:induction false} AcceptedFurther(w: Wiring, pending: seq<Pending>, k: nat)
    requires k <= Accepted(w, pending) && k < |pending|
    ensures w.verifies(pending[k].payload) <==> k < Accepted(w, pending)
  {
  }

  /** Undisturbed from state s on: the rows from the front that verify reach the log, in order; if all do they are all
      marked, and otherwise none is. */
  ghost predicate RowsEffect(w: Wiring, s: State, pending: seq<Pending>, at: Time, r: BatchResult, s': State) {
    var n := Accepted(w, pending);
    && s'.log == s.log + Records(pending[..n])
    && r == (if n == |pending| then Marked(n) else BatchFailed(n))
    && s'.db == s.db.(outbox := if n == |pending| then MarksCommitted(s.db.outbox, pending, at) else s.db.outbox)
  }

  /** And the rows were the oldest available ones, as many as the batch holds. */
  ghost predicate BatchEffect(w: Wiring, s: State, ids: seq<Id>, at: Time, r: BatchResult, s': State) {
    && IsSelection(s, ids, w.batchSize) && (forall id <- ids :: id in s.db.outbox)
    && RowsEffect(w, s, Scan(s.db, ids), at, r, s')
  }

  /** The transaction holds a batch of the oldest available rows. */
  ghost predicate Took(w: Wiring, s: State, ids: seq<Id>, at: Time, t: Tx) {
    && IsSelection(s, ids, w.batchSize) && (forall id <- ids :: id in s.db.outbox)
    && t == Batch(at, Scan(s.db, ids), 0, Ready)
  }

  lemma EffectKnown(w: Wiring, s0: State, begun: State, taken: State, tx: TxId, at: Time, r: BatchResult, s': State)
    requires begun.db == taken.db == s0.db && taken.log == s0.log
    requires s0.txs == map[] && begun.txs.Keys == {tx} && begun.txs[tx].Draining? && tx in taken.txs
    requires exists ids :: Took(w, begun, ids, at, taken.txs[tx])
    requires taken.txs[tx].Batch? && RowsEffect(w, taken, taken.txs[tx].pending, taken.txs[tx].now, r, s')
    ensures exists ids :: BatchEffect(w, s0, ids, at, r, s')
  {
    hide IsSelection, Scan;
    var ids :| Took(w, begun, ids, at, taken.txs[tx]);
    SameSelection(s0, begun, ids, w.batchSize, tx);
    assert BatchEffect(w, s0, ids, at, r, s');
  }

  lemma SameSelection(s: State, s': State, ids: seq<Id>, limit: nat, tx: TxId)
    requires s'.db == s.db && s.txs == map[] && s'.txs.Keys == {tx} && s'.txs[tx].Draining?
    ensures IsSelection(s', ids, limit) <==> IsSelection(s, ids, limit)
  {
    assert forall id :: Available(s', id) <==> Available(s, id);
    hide Available;
  }
}
