/** The database as one caller sees it: statements run one by one while other sessions interleave, wait for each
    other, or fail. Every call is a run of the machine, so what holds of every reachable state holds here. */
module Session {
  import opened Text
  import opened Model
  import opened Machine
  import opened Invariant
  import opened Runs

  /** What happens around one statement: the events of other transactions before it, whether it fails, and, if
      it is a commit that takes effect, whether its success is reported. */
  datatype Turn = Turn(others: seq<Event>, fails: bool, reported: bool)

  const CALM := Turn([], false, true)

  // ---------- other sessions leave a transaction alone ----------

  ghost predicate Untouched(s: State, s': State, tx: TxId) {
    && (tx in s'.txs <==> tx in s.txs) && (tx in s.txs ==> s'.txs[tx] == s.txs[tx])
    && (tx in s'.outcomes <==> tx in s.outcomes) && (tx in s.outcomes ==> s'.outcomes[tx] == s.outcomes[tx])
  }

  lemma ProducerStepElsewhere(w: Wiring, s: State, e: Event, tx: TxId)
    requires e.tx != tx && OfProducer(e)
    ensures Untouched(s, Step(w, s, e), tx)
  {
  }

  lemma PublisherStepElsewhere(w: Wiring, s: State, e: Event, tx: TxId)
    requires e.tx != tx && OfPublisher(e) && !OfProducer(e)
    ensures Untouched(s, Step(w, s, e), tx)
  {
    hide IsSelection, Scan, MarksCommitted;
  }

  lemma StoreStepElsewhere(w: Wiring, s: State, e: Event, tx: TxId)
    requires e.tx != tx && !OfPublisher(e)
    ensures Untouched(s, Step(w, s, e), tx)
  {
    hide KeyTaken, KeyClaimed, PackageIdFree, EntryIdFree, EventIdFree, IsKeyHolder, Model.Matches, HasTerminal,
      IsLatest, TerminalClaimed, RowLocked, TriggerAdmits, StoredPackage, ReceivedEntry, DecisionEntry, EventRow,
      ValidCreate, ValidValidation, CreateCommitted, DecisionCommitted;
  }

  lemma StepElsewhere(w: Wiring, s: State, e: Event, tx: TxId)
    requires e.tx != tx
    ensures Untouched(s, Step(w, s, e), tx)
  {
    hide Step, Untouched;
    if OfProducer(e) {
      ProducerStepElsewhere(w, s, e, tx);
    } else if OfPublisher(e) {
      PublisherStepElsewhere(w, s, e, tx);
    } else {
      StoreStepElsewhere(w, s, e, tx);
    }
  }

  lemma {:induction false} RunElsewhere(w: Wiring, s: State, es: seq<Event>, tx: TxId)
    requires forall e <- es :: e.tx != tx
    ensures Untouched(s, Run(w, s, es), tx)
    decreases |es|
  {
    hide Step;
    if es != [] {
      StepElsewhere(w, s, es[0], tx);
      RunElsewhere(w, Step(w, s, es[0]), es[1..], tx);
    }
  }

  lemma OneStep(w: Wiring, s: State, e: Event)
    ensures Run(w, s, [e]) == Step(w, s, e)
  {
    assert Run(w, Step(w, s, e), []) == Step(w, s, e);
    assert [e][1..] == [];
  }

  // ---------- statements ----------

  /** The statement ran in a state where the transaction was still as it had been. */
  ghost predicate Ran(w: Wiring, t: Tx, e: Event, s: State) {
    exists s0: State :: e.tx in s0.txs && s0.txs[e.tx] == t && s == Step(w, s0, e) && s != s0
  }

  function Begun(e: Event): Tx
    requires e.BeginCreate? || e.BeginDecision? || e.BeginBatch?
  {
    match e
    case BeginCreate(_, at, request) => Creating(at, request)
    case BeginDecision(_, at, package, decision) => Deciding(at, package, decision)
    case BeginBatch(_, at) => Draining(at)
  }

  predicate MayBegin(w: Wiring, e: Event) {
    match e
    case BeginCreate(_, _, request) => ValidCreate(request)
    case BeginDecision(_, _, package, decision) => ValidValidation(decision) && Names(w, decision, package)
    case BeginBatch(_, _) => true
    case _ => false
  }

  lemma BeginStep(w: Wiring, s: State, e: Event)
    requires MayBegin(w, e) && Unused(s, e.tx)
    ensures var s' := Step(w, s, e);
            && s'.txs == s.txs[e.tx := Begun(e)] && s'.db == s.db && s'.outcomes == s.outcomes && s'.log == s.log
              && s'.acked == s.acked
            && s'.begun == s.begun + if e.BeginCreate? then {e.request} else {}
  {
    hide ValidCreate, ValidValidation;
  }

  predicate MayCommit(e: Event, t: Tx) {
    match e
    case CommitCreate(_, _) => t.Enqueued?
    case CommitLookup(_, _) => t.Matched?
    case CommitDecision(_, _) => t.Announced?
    case CommitBatch(_, _) => t.Batch? && t.phase.Ready? && t.next == |t.pending|
    case _ => false
  }

  function SuccessOf(e: Event, t: Tx): Outcome
    requires MayCommit(e, t)
  {
    match e
    case CommitCreate(_, _) => Created(t.request, t.row)
    case CommitLookup(_, _) => Retained(t.request, t.existing)
    case CommitDecision(_, _) => Decided(t.entry)
    case CommitBatch(_, _) => Published(|t.pending|)
  }

  lemma CommitStep(w: Wiring, s: State, e: Event)
    requires e.tx in s.txs && MayCommit(e, s.txs[e.tx])
    ensures var s' := Step(w, s, e);
            && s'.txs == s.txs - {e.tx} && s'.outcomes == s.outcomes[e.tx := Reported(e.reported,
              SuccessOf(e, s.txs[e.tx]))]
            && s'.log == s.log && s'.acked == s.acked && s'.begun == s.begun
  {
    hide CreateCommitted, DecisionCommitted, MarksCommitted;
  }

  lemma AbortStep(w: Wiring, s: State, tx: TxId)
    requires tx in s.txs
    ensures Step(w, s, Abort(tx)) == End(s, tx, Failed)
  {
  }

  /** No event of the transaction so far. */
  ghost predicate NewTo(trace: seq<Event>, tx: TxId) {
    forall e <- trace :: e.tx != tx
  }

  /** The transaction has committed nothing. */
  ghost predicate UncommittedBy(trace: seq<Event>, tx: TxId) {
    forall e <- trace :: e.tx == tx ==> !IsCommit(e)
  }

  lemma {:induction false} NewIsUnused(w: Wiring, es: seq<Event>, tx: TxId)
    requires NewTo(es, tx)
    ensures Unused(Run(w, EMPTY, es), tx) && UncommittedBy(es, tx)
  {
    RunElsewhere(w, EMPTY, es, tx);
  }

  /** A longer trace extends the tables and remembers what calls returned. */
  lemma TraceExtends(w: Wiring, es: seq<Event>, fs: seq<Event>)
    requires es <= fs
    ensures Extends(Run(w, EMPTY, es).db, Run(w, EMPTY, fs).db)
    ensures Remembers(Run(w, EMPTY, es), Run(w, EMPTY, fs))
  {
    hide Run, Inv, Extends, Remembers;
    var s := Run(w, EMPTY, es);
    assert fs == es + fs[|es|..];
    RunAppend(w, EMPTY, es, fs[|es|..]);
    ReachableOk(w, s);
    RunOk(w, s, fs[|es|..]);
    RunRemembers(w, s, fs[|es|..]);
  }

  /** The events of others are not the transaction's own. */
  lemma TraceOfOthers(trace: seq<Event>, others: seq<Event>, tx: TxId)
    requires forall e <- others :: e.tx != tx
    ensures NewTo(trace, tx) ==> NewTo(trace + others, tx)
    ensures UncommittedBy(trace, tx) ==> UncommittedBy(trace + others, tx)
  {
    assert forall e <- trace + others :: e in trace || e in others;
  }

  class Database {
    const wiring: Wiring
    const schedule: nat -> Turn
    /** How many turns a statement waits before its deadline. */
    const patience: nat
    var clock: nat
    var state: State
    ghost var trace: seq<Event>

    constructor (wiring: Wiring, schedule: nat -> Turn, patience: nat)
      ensures Valid() && state == EMPTY && trace == [] && clock == 0
      ensures this.wiring == wiring && this.schedule == schedule && this.patience == patience
    {
      this.wiring, this.schedule, this.patience := wiring, schedule, patience;
      clock, state, trace := 0, EMPTY, [];
    }

    ghost predicate Valid()
      reads this
    {
      state == Run(wiring, EMPTY, trace)
    }

    /** The schedule holds no event of the transaction. */
    ghost predicate Foreign(tx: TxId) {
      forall k: nat, e :: e in schedule(k).others ==> e.tx != tx
    }

    /** From this turn on nobody interferes and nothing fails. */
    ghost predicate CalmFrom(turn: nat) {
      forall k: nat :: turn <= k ==> schedule(k) == CALM
    }

    /** The transactions from this number on are neither scheduled nor used so far. */
    ghost predicate Reserved(first: TxId)
      reads this
    {
      forall tx :: first <= tx ==> Foreign(tx) && NewTo(trace, tx)
    }

    /** Inside a transaction that has committed nothing yet. */
    ghost predicate Inside(tx: TxId)
      reads this
    {
      Valid() && Foreign(tx) && UncommittedBy(trace, tx) && tx in state.txs
    }

    /** From here on no session interferes, nothing fails, and only these transactions are in flight. */
    ghost predicate Undisturbed(mine: set<TxId>)
      reads this
    {
      CalmFrom(clock) && patience > 0 && state.txs.Keys == mine
    }

    /** The transaction is over, with this outcome. */
    ghost predicate Ended(tx: TxId, o: Outcome)
      reads this
    {
      Valid() && tx !in state.txs && tx in state.outcomes && state.outcomes[tx] == o
    }

    lemma ValidIsReachable()
      requires Valid()
      ensures Reachable(wiring, state) && Inv(wiring, state)
    {
      hide Inv;
      ReachableOk(wiring, state);
    }

    method Perform(e: Event)
      requires Valid()
      modifies this`state, this`trace
      ensures Valid() && state == Step(wiring, old(state), e) && trace == old(trace) + [e]
      ensures forall tx :: old(UncommittedBy(trace, tx)) && (e.tx == tx ==> !IsCommit(e)) ==> UncommittedBy(trace, tx)
      ensures forall first :: e.tx < first && old(Reserved(first)) ==> Reserved(first)
    {
      hide Step;
      RunAppend(wiring, EMPTY, trace, [e]);
      OneStep(wiring, state, e);
      state, trace := Step(wiring, state, e), trace + [e];
      forall first, tx | e.tx < first && old(Reserved(first)) && first <= tx ensures Foreign(tx) && NewTo(trace, tx) {
        assert old(NewTo(trace, tx));
      }
    }

    /** The other sessions go first. */
    method Yield(tx: TxId) returns (turn: Turn)
      requires Valid() && Foreign(tx)
      modifies this
      ensures Valid() && clock == old(clock) + 1 && turn == schedule(old(clock))
      ensures Untouched(old(state), state, tx) && (old(UncommittedBy(trace, tx)) ==> UncommittedBy(trace, tx))
      ensures trace == old(trace) + turn.others && state == Run(wiring, old(state), turn.others)
      ensures old(CalmFrom(clock)) ==> CalmFrom(clock) && turn == CALM && state == old(state)
      ensures forall first :: old(Reserved(first)) ==> Reserved(first)
    {
      hide Step, NewTo, UncommittedBy, Untouched;
      ghost var before := trace;
      turn := schedule(clock);
      RunAppend(wiring, EMPTY, trace, turn.others);
      RunElsewhere(wiring, state, turn.others, tx);
      TraceOfOthers(trace, turn.others, tx);
      clock, state, trace := clock + 1, Run(wiring, state, turn.others), trace + turn.others;
      forall first, other | old(Reserved(first)) && first <= other ensures Foreign(other) && NewTo(trace, other) {
        assert Foreign(other) && NewTo(before, other);
        TraceOfOthers(before, turn.others, other);
      }
    }

    /** Starts a transaction, or fails to. */
    method Begin(e: Event) returns (ok: bool)
      requires Valid() && Foreign(e.tx) && NewTo(trace, e.tx) && MayBegin(wiring, e)
      modifies this
      ensures Valid() && old(clock) <= clock && old(trace) <= trace && UncommittedBy(trace, e.tx)
      ensures ok ==> e.tx in state.txs && state.txs[e.tx] == Begun(e)
      ensures !ok ==> NewTo(trace, e.tx)
      ensures old(CalmFrom(clock)) ==>
        CalmFrom(clock) && ok && state.db == old(state.db) && state.txs == old(state.txs)[e.tx := Begun(e)]
      ensures old(CalmFrom(clock)) ==> state.log == old(state.log) && state.acked == old(state.acked)
      ensures forall first :: e.tx < first && old(Reserved(first)) ==> Reserved(first)
    {
      hide Step, Run, Reserved;
      var turn := Yield(e.tx);
      assert NewTo(trace, e.tx);
      if turn.fails { return false; }
      NewIsUnused(wiring, trace, e.tx);
      BeginStep(wiring, state, e);
      Perform(e);
      return true;
    }

    /** One statement: waits while the machine blocks it, gives up after too many turns or when it fails. A
        statement that gives up has left the transaction as it was. */
    method Execute(e: Event) returns (ok: bool)
      requires Valid() && Foreign(e.tx) && e.tx in state.txs && !IsCommit(e) && UncommittedBy(trace, e.tx)
      modifies this
      ensures Valid() && old(clock) <= clock && old(trace) <= trace && UncommittedBy(trace, e.tx)
      ensures ok ==> Ran(wiring, old(state.txs[e.tx]), e, state)
      ensures !ok ==> e.tx in state.txs && state.txs[e.tx] == old(state.txs[e.tx])
      ensures old(CalmFrom(clock)) ==> CalmFrom(clock)
      ensures old(CalmFrom(clock)) && patience > 0 && Step(wiring, old(state), e) != old(state)
              ==> ok && state == Step(wiring, old(state), e)
      ensures forall first :: e.tx < first && old(Reserved(first)) ==> Reserved(first)
    {
      hide Step, Run, IsCommit, Reserved;
      ghost var t := state.txs[e.tx];
      var waited := 0;
      while waited < patience
        invariant Valid() && old(clock) <= clock && old(trace) <= trace && UncommittedBy(trace, e.tx)
        invariant e.tx in state.txs && state.txs[e.tx] == t
        invariant forall first :: e.tx < first && old(Reserved(first)) ==> Reserved(first)
        invariant waited == 0 ==> clock == old(clock) && state == old(state)
        invariant CalmFrom(old(clock)) && Step(wiring, old(state), e) != old(state) ==> waited == 0
      {
        var turn := Yield(e.tx);
        if turn.fails { return false; }
        var before := state;
        Perform(e);
        if state != before { return true; }
        waited := waited + 1;
      }
      return false;
    }

    /** The deferred rollback of a failed call. */
    method Rollback(tx: TxId)
      requires Valid() && tx in state.txs && UncommittedBy(trace, tx)
      modifies this`state, this`trace
      ensures Valid() && old(trace) <= trace && UncommittedBy(trace, tx)
      ensures state == End(old(state), tx, Failed)
      ensures forall first :: tx < first && old(Reserved(first)) ==> Reserved(first)
    {
      hide Step, Run, Reserved;
      AbortStep(wiring, state, tx);
      Perform(Abort(tx));
    }

    /** A commit may fail, or take effect with its success unreported. */
    method Commit(e: Event) returns (done: bool)
      requires Valid() && Foreign(e.tx) && e.tx in state.txs && MayCommit(e, state.txs[e.tx])
      modifies this
      ensures Valid() && old(clock) <= clock && old(trace) <= trace
      ensures old(UncommittedBy(trace, e.tx)) && e.CommitLookup? ==> UncommittedBy(trace, e.tx)
      ensures e.tx !in state.txs && e.tx in state.outcomes
      ensures state.outcomes[e.tx] == Reported(done, SuccessOf(e, old(state.txs[e.tx])))
      ensures old(CalmFrom(clock)) ==>
        CalmFrom(clock) && done && state == Step(wiring, old(state), e.(reported := true))
      ensures forall first :: e.tx < first && old(Reserved(first)) ==> Reserved(first)
    {
      hide Step, Run, Reserved;
      var turn := Yield(e.tx);
      if turn.fails {
        AbortStep(wiring, state, e.tx);
        Perform(Abort(e.tx));
        return false;
      }
      var reply := e.(reported := turn.reported);
      CommitStep(wiring, state, reply);
      Perform(reply);
      return turn.reported;
    }
  }
}
