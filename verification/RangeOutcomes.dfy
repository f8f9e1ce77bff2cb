/** What indexing a ledger range comes to, read off the chain, the range and the tables
    before the call (app/tasks.py, `_index_range`). */
module RangeOutcomes {
  import opened Results
  import opened Bits
  import opened Sorting
  import opened Merkle
  import opened NoteParser
  import opened NoteOutcomes
  import opened NoteIndexer

  /** `ledger_sequence BETWEEN start AND end AND event_type IN (...)`. */
  predicate Selected(run: Run, e: LedgerEvent) {
    && run.start <= e.ledger && e.ledger <= run.end
    && (e.eventType == NoteDeposited || e.eventType == NullifierSpent)
  }

  lemma OneEventIsSelected(run: Run, e: LedgerEvent)
    ensures Events(run.(chain := [e])) == if Selected(run, e) then [e] else []
  {
    var one := run.(chain := [e]);
    assert Fetch(one, 0) == [] && Events(one) == Fetch(one, 1);
  }

  lemma {:induction false} FetchPrefix(run: Run, more: seq<LedgerEvent>, n: nat)
    requires n <= |run.chain|
    ensures Fetch(run.(chain := run.chain + more), n) == Fetch(run, n)
  {
    if n > 0 {
      FetchPrefix(run, more, n - 1);
    }
  }

  lemma {:induction false} FetchRest(run: Run, more: seq<LedgerEvent>, n: nat)
    requires n <= |more|
    ensures Fetch(run.(chain := run.chain + more), |run.chain| + n) == Events(run) + Fetch(run.(chain := more), n)
  {
    if n == 0 {
      FetchPrefix(run, more, |run.chain|);
    } else {
      FetchRest(run, more, n - 1);
      assert (run.chain + more)[|run.chain| + n - 1] == more[n - 1];
    }
  }

  /** With `OneEventIsSelected`: the call finds the selected events of the chain, each
      as often as it is there and in the chain's order. */
  lemma FetchFollowsChain(run: Run, more: seq<LedgerEvent>)
    ensures Events(run.(chain := run.chain + more)) == Events(run) + Events(run.(chain := more))
  {
    FetchRest(run, more, |more|);
  }

  lemma EventsAreSelected(run: Run)
    ensures forall e :: e in Events(run) <==> e in run.chain && Selected(run, e)
  {
    assert forall e :: Wanted(run, e) <==> Selected(run, e);
  }

  ghost predicate DepositOfChain(run: Run, row: CommitmentRow) {
    exists e :: e in run.chain && run.start <= e.ledger <= run.end && IsDeposit(e) && RowFrom(row, e)
  }

  ghost predicate SpendOfChain(run: Run, row: NullifierRow) {
    exists e :: e in run.chain && run.start <= e.ledger <= run.end && IsSpend(e) && SpendFrom(row, e)
  }

  lemma DepositsComeFromChain(run: Run, before: seq<CommitmentRow>, rows: seq<CommitmentRow>, events: seq<LedgerEvent>, at: seq<nat>)
    requires CopyDeposits(before, rows, events, at)
    requires forall e :: e in events ==> e in run.chain && Selected(run, e)
    requires forall i :: 0 <= i < |at| ==> at[i] < |events| && IsDeposit(events[at[i]])
    ensures forall i :: |before| <= i < |rows| ==> DepositOfChain(run, rows[i])
  {
    forall i | |before| <= i < |rows|
      ensures DepositOfChain(run, rows[i])
    {
      var e := events[at[i - |before|]];
      assert e in events && RowFrom(rows[i], e);
    }
  }

  lemma SpendsComeFromChain(run: Run, before: seq<NullifierRow>, rows: seq<NullifierRow>, events: seq<LedgerEvent>, at: seq<nat>)
    requires CopySpends(before, rows, events, at)
    requires forall e :: e in events ==> e in run.chain && Selected(run, e)
    requires forall i :: 0 <= i < |at| ==> at[i] < |events| && IsSpend(events[at[i]])
    ensures forall i :: |before| <= i < |rows| ==> SpendOfChain(run, rows[i])
  {
    forall i | |before| <= i < |rows|
      ensures SpendOfChain(run, rows[i])
    {
      var e := events[at[i - |before|]];
      assert e in events && SpendFrom(rows[i], e);
    }
  }

  lemma BatchOfRange(t: Tables, run: Run)
    requires Batch(t, run.encryptor, Events(run)).Ok?
    ensures var b := Batch(t, run.encryptor, Events(run)).value;
      && (forall i :: |t.commitments| <= i < |b.tables.commitments| ==> DepositOfChain(run, b.tables.commitments[i]))
      && (forall i :: |t.nullifiers| <= i < |b.tables.nullifiers| ==> SpendOfChain(run, b.tables.nullifiers[i]))
      && b.commitments == |b.tables.commitments| - |t.commitments| && b.nullifiers == |b.tables.nullifiers| - |t.nullifiers|
  {
    var b, s := Batch(t, run.encryptor, Events(run)).value, InOrder(Events(run));
    BatchStoresExactly(t, run.encryptor, Events(run));
    EventsAreSelected(run);
    SortKeepsMembers(Events(run), ByKey());
    var deposits, spends := KeptDeposits(t, s, |s|), KeptSpends(t, s, |s|);
    assert forall i :: 0 <= i < |deposits| ==> deposits[i] in deposits;
    assert forall i :: 0 <= i < |spends| ==> spends[i] in spends;
    DepositsComeFromChain(run, t.commitments, b.tables.commitments, s, deposits);
    SpendsComeFromChain(run, t.nullifiers, b.tables.nullifiers, s, spends);
  }

  /** Every row that a successful call adds copies a deposit or spend of the range, and
      the two counts it returns are the rows it added. */
  lemma RangeAddsItsEvents(hash: Hasher, depth: int, t: Tables, run: Run)
    requires Inv(hash, depth, t) && RangeSpec(hash, depth, t, run).Ok?
    ensures var r, t' := RangeSpec(hash, depth, t, run).value, AfterRun(hash, depth, t, run);
      && (forall i :: |t.commitments| <= i < |t'.commitments| ==> DepositOfChain(run, t'.commitments[i]))
      && (forall i :: |t.nullifiers| <= i < |t'.nullifiers| ==> SpendOfChain(run, t'.nullifiers[i]))
      && |t'.commitments| == |t.commitments| + r.commitments && |t'.nullifiers| == |t.nullifiers| + r.nullifiers
  {
    RunShape(hash, depth, t, run);
    BatchOfRange(t, run);
  }

  /** After a successful call, every well-formed deposit of the range has its event or
      its commitment stored, and every well-formed spend its nullifier. */
  lemma RangeIsIndexed(hash: Hasher, depth: int, t: Tables, run: Run)
    requires Inv(hash, depth, t) && RangeSpec(hash, depth, t, run).Ok?
    ensures var t' := AfterRun(hash, depth, t, run);
      && (forall e :: e in run.chain && run.start <= e.ledger <= run.end && IsDeposit(e) ==> DepositStored(t', e))
      && (forall e :: e in run.chain && run.start <= e.ledger <= run.end && IsSpend(e) ==> SpendStored(t', e))
  {
    var t' := AfterRun(hash, depth, t, run);
    EventsAreSelected(run);
    RunEventsAreIn(hash, depth, t, run);
    forall e | e in run.chain && run.start <= e.ledger <= run.end && (IsDeposit(e) || IsSpend(e))
      ensures !Fresh(t', e)
    {
      assert e in Events(run);
      FreshIsNotAbsorbed(t', e);
    }
  }

  /** A ledger has a checkpoint. */
  predicate HasCheckpoint(t: Tables, ledger: int) {
    exists i :: 0 <= i < |t.roots| && t.roots[i].ledger == ledger
  }

  /** The checkpoint step fails exactly for a depth that is none of 1 to 32, and for a
      tree that must be checkpointed and does not fit. */
  lemma CheckpointFailsExactly(hash: Hasher, depth: int, t: Tables, added: seq<CommitmentRow>, ledger: int)
    requires WellFormed(t) && added != []
    ensures !(1 <= depth <= 32) ==> Checkpointed(hash, depth, t, added, Some(ledger)) == Err(TreeError(BadDepth))
    ensures 1 <= depth <= 32 && !HasCheckpoint(t, ledger) && |t.commitments| > Pow2(depth) ==>
      Checkpointed(hash, depth, t, added, Some(ledger)) == Err(TreeError(TooManyLeaves))
    ensures 1 <= depth <= 32 && (HasCheckpoint(t, ledger) || |t.commitments| <= Pow2(depth)) ==>
      Checkpointed(hash, depth, t, added, Some(ledger)).Ok?
  {
    WellFormedIsInLeafOrder(t);
  }

  /** Exactly when a call fails, and with which error: its batch fails, or it added
      leaves and the configured depth is none of 1 to 32, or the tree it would have
      to checkpoint does not fit. */
  lemma RangeFailsExactly(hash: Hasher, depth: int, t: Tables, run: Run)
    requires Inv(hash, depth, t)
    ensures var batch, r := Batch(t, run.encryptor, Events(run)), RangeSpec(hash, depth, t, run);
      if batch.Err? then r == Err(batch.error)
      else if batch.value.commitments > 0 && !(1 <= depth <= 32) then r == Err(TreeError(BadDepth))
      else if batch.value.commitments > 0 && !HasCheckpoint(t, run.end) && |batch.value.tables.commitments| > Pow2(depth) then
        r == Err(TreeError(TooManyLeaves))
      else r.Ok?
  {
    var batch := Batch(t, run.encryptor, Events(run));
    if batch.Ok? && batch.value.commitments > 0 {
      ApplyAllKeepsWellFormed(t, run.encryptor, StableSort(Events(run), ByKey()));
      AddedIsNotEmpty(t, run);
      var added := LeafOrder(InRange(batch.value.tables.commitments, run.start, run.end));
      CheckpointFailsExactly(hash, depth, batch.value.tables, added, run.end);
    }
  }
}
