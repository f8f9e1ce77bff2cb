/** The indexing transaction (app/tasks.py, `_index_range`): parse the events of a
    ledger range, checkpoint the tree, commit everything or nothing.

    `update_root` is modelled as it is evidently meant: one checkpoint per ledger,
    holding the root of all stored leaves. */
module NoteIndexer {
  import opened Results
  import opened Bits
  import opened Sorting
  import opened Merkle
  import opened NoteParser
  import Hex

  // ---------------------------------------------------------------------------
  // Stored leaves and the checkpoint step.
  // ---------------------------------------------------------------------------

  predicate AllHex(rows: seq<CommitmentRow>) {
    forall i :: 0 <= i < |rows| ==> Hex.IsHex64(rows[i].commitment)
  }

  function Values(rows: seq<CommitmentRow>): (leaves: seq<nat>)
    requires AllHex(rows)
    ensures |leaves| == |rows|
  {
    seq(|rows|, i requires 0 <= i < |rows| => Hex.Value(rows[i].commitment))
  }

  function ByLeaf(): (CommitmentRow, CommitmentRow) -> bool {
    (a: CommitmentRow, b: CommitmentRow) => a.leafIndex <= b.leafIndex
  }

  /** `ORDER BY leaf_index ASC`. */
  function LeafOrder(rows: seq<CommitmentRow>): seq<CommitmentRow> {
    StableSort(rows, ByLeaf())
  }

  lemma WellFormedIsInLeafOrder(t: Tables)
    requires WellFormed(t)
    ensures LeafOrder(t.commitments) == t.commitments
  {
    SortedIsFixed(t.commitments, ByLeaf());
  }

  predicate HasRoot(t: Tables, ledger: int) {
    exists i :: 0 <= i < |t.roots| && t.roots[i].ledger == ledger
  }

  function MaxLedger(rows: seq<CommitmentRow>): int
    requires rows != []
  {
    if |rows| == 1 then rows[0].ledger
    else
      var before, last := MaxLedger(rows[..|rows| - 1]), rows[|rows| - 1].ledger;
      if before > last then before else last
  }

  /** `max(...)` over the ledgers of the rows. */
  lemma {:induction false} MaxLedgerIsLargest(rows: seq<CommitmentRow>)
    requires rows != []
    ensures forall i :: 0 <= i < |rows| ==> rows[i].ledger <= MaxLedger(rows)
    ensures exists i :: 0 <= i < |rows| && rows[i].ledger == MaxLedger(rows)
  {
    var last := |rows| - 1;
    if last > 0 {
      MaxLedgerIsLargest(rows[..last]);
      var i :| 0 <= i < last && rows[..last][i].ledger == MaxLedger(rows[..last]);
      assert rows[i].ledger == MaxLedger(rows[..last]) && rows[last].ledger <= MaxLedger(rows);
    }
  }

  /** What is stored beside a root: zero hashes, and no version or scheme tag. */
  function StoredState(hash: Hasher, depth: nat): TreeState {
    TreeState(None, None, Some(depth), Some(InitialFrontier(hash, depth)))
  }

  ghost function Checkpointed(hash: Hasher, depth: int, t: Tables, added: seq<CommitmentRow>, ledger: Option<int>): Result<Tables, IndexError> {
    if added == [] then Ok(t)
    else if !ValidDepth(depth) then Err(TreeError(BadDepth))
    else
      var target := if ledger.Some? then ledger.value else MaxLedger(added);
      var rows := LeafOrder(t.commitments);
      if HasRoot(t, target) then Ok(t)
      else if !AllHex(rows) then Err(TreeError(BadElement))
      else match RootSpec(hash, Values(rows), depth)
        case Err(e) => Err(TreeError(e))
        case Ok(root) => Ok(t.(roots := t.roots + [Checkpoint(root, |rows|, target, StoredState(hash, depth))]))
  }

  method UpdateRoot(session: Session, hash: Hasher, depth: int, added: seq<CommitmentRow>, ledger: Option<int>)
    returns (r: Result<(), IndexError>)
    modifies session
    ensures match Checkpointed(hash, depth, old(session.tables), added, ledger)
      case Ok(t) => session.tables == t && r == Ok(())
      case Err(e) => session.tables == old(session.tables) && r == Err(e)
  {
    if added == [] {
      return Ok(());
    }
    if !ValidDepth(depth) {
      return Err(TreeError(BadDepth));
    }
    var target := if ledger.Some? then ledger.value else MaxLedger(added);
    if HasRoot(session.tables, target) {
      return Ok(());
    }
    var rows := LeafOrder(session.tables.commitments);
    if !AllHex(rows) {
      return Err(TreeError(BadElement));
    }
    var root := ComputeRootFromLeaves(hash, Values(rows), depth);
    match root {
      case Err(e) => return Err(TreeError(e));
      case Ok(value) =>
        var checkpoint := Checkpoint(value, |rows|, target, StoredState(hash, depth));
        session.tables := session.tables.(roots := session.tables.roots + [checkpoint]);
        return Ok(());
    }
  }

  // ---------------------------------------------------------------------------
  // One transaction over a ledger range.
  // ---------------------------------------------------------------------------

  /** One call: the range, whether an encryptor is configured, and the ledger
      events as the call finds them. */
  datatype Run = Run(start: int, end: int, encryptor: bool, chain: seq<LedgerEvent>)

  predicate Wanted(run: Run, e: LedgerEvent) {
    run.start <= e.ledger <= run.end && !e.eventType.OtherType?
  }

  function Fetch(run: Run, upTo: nat): seq<LedgerEvent>
    requires upTo <= |run.chain|
  {
    if upTo == 0 then []
    else Fetch(run, upTo - 1) + (if Wanted(run, run.chain[upTo - 1]) then [run.chain[upTo - 1]] else [])
  }

  lemma {:induction false} FetchMembers(run: Run, upTo: nat)
    requires upTo <= |run.chain|
    ensures forall e :: e in Fetch(run, upTo) <==> e in run.chain[..upTo] && Wanted(run, e)
  {
    if upTo > 0 {
      FetchMembers(run, upTo - 1);
      assert run.chain[..upTo] == run.chain[..upTo - 1] + [run.chain[upTo - 1]];
    }
  }

  function Events(run: Run): (events: seq<LedgerEvent>)
    ensures forall e :: e in events <==> e in run.chain && Wanted(run, e)
  {
    FetchMembers(run, |run.chain|);
    assert run.chain[..|run.chain|] == run.chain;
    Fetch(run, |run.chain|)
  }

  function InRange(rows: seq<CommitmentRow>, start: int, end: int): (r: seq<CommitmentRow>)
    ensures (exists i :: 0 <= i < |rows| && start <= rows[i].ledger <= end) ==> r != []
  {
    if rows == [] then []
    else
      InRange(rows[..|rows| - 1], start, end)
        + (if start <= rows[|rows| - 1].ledger <= end then [rows[|rows| - 1]] else [])
  }

  ghost function RangeSpec(hash: Hasher, depth: int, t: Tables, run: Run): Result<Indexed, IndexError> {
    match Batch(t, run.encryptor, Events(run))
    case Err(e) => Err(e)
    case Ok(b) =>
      if b.commitments == 0 then Ok(b)
      else match Checkpointed(hash, depth, b.tables, LeafOrder(InRange(b.tables.commitments, run.start, run.end)), Some(run.end))
        case Err(e) => Err(e)
        case Ok(t') => Ok(b.(tables := t'))
  }

  /** The committed tables. */
  class NoteDatabase {
    var tables: Tables

    constructor ()
      ensures tables == Tables([], [], [])
    {
      tables := Tables([], [], []);
    }

    /** All of a range's effects are committed together, or none is. */
    method IndexRange(hash: Hasher, depth: int, run: Run) returns (r: Result<(nat, nat), IndexError>)
      modifies this
      ensures match RangeSpec(hash, depth, old(tables), run)
        case Ok(b) => tables == b.tables && r == Ok((b.commitments, b.nullifiers))
        case Err(e) => tables == old(tables) && r == Err(e)
    {
      var events: seq<LedgerEvent> := [];
      for i := 0 to |run.chain|
        invariant events == Fetch(run, i)
      {
        if Wanted(run, run.chain[i]) {
          events := events + [run.chain[i]];
        }
      }
      var session := new Session(tables);
      var parsed := session.ParseBatch(run.encryptor, events);
      if parsed.Err? {
        return Err(parsed.error);
      }
      if parsed.value.0 > 0 {
        var added := LeafOrder(InRange(session.tables.commitments, run.start, run.end));
        var updated := UpdateRoot(session, hash, depth, added, Some(run.end));
        if updated.Err? {
          return Err(updated.error);
        }
      }
      tables := session.tables;
      return Ok(parsed.value);
    }
  }

  // ---------------------------------------------------------------------------
  // What every transaction keeps, whatever the ranges and events.
  // ---------------------------------------------------------------------------

  /** At most one checkpoint per ledger, and each is the full tree's root of the
      first `leafCount` stored leaves. */
  ghost predicate RootsSound(hash: Hasher, depth: int, t: Tables) {
    && AllHex(t.commitments)
    && (forall i, j :: 0 <= i < j < |t.roots| ==> t.roots[i].ledger != t.roots[j].ledger)
    && (forall i :: 0 <= i < |t.roots| ==> RootSound(hash, depth, t.commitments, t.roots[i]))
  }

  ghost predicate Inv(hash: Hasher, depth: int, t: Tables) {
    WellFormed(t) && RootsSound(hash, depth, t)
  }

  lemma ValuesPrefix(rows: seq<CommitmentRow>, rows': seq<CommitmentRow>, n: nat)
    requires AllHex(rows') && rows <= rows' && n <= |rows|
    ensures AllHex(rows) && Values(rows)[..n] == Values(rows')[..n]
  {
    assert forall i :: 0 <= i < |rows| ==> rows[i] == rows'[i];
  }

  /** One checkpoint is the full tree's root of the first leaves of the rows. */
  ghost predicate RootSound(hash: Hasher, depth: int, rows: seq<CommitmentRow>, c: Checkpoint)
    requires AllHex(rows)
  {
    && ValidDepth(depth) && c.leafCount <= |rows| && c.leafCount <= Pow2(depth)
    && c.root == TreeRoot(hash, Values(rows)[..c.leafCount], depth)
    && c.treeState == StoredState(hash, depth)
  }

  lemma RootStaysSound(hash: Hasher, depth: int, rows: seq<CommitmentRow>, rows': seq<CommitmentRow>, c: Checkpoint)
    requires AllHex(rows') && rows <= rows' && AllHex(rows) && RootSound(hash, depth, rows, c)
    ensures RootSound(hash, depth, rows', c)
  {
    ValuesPrefix(rows, rows', c.leafCount);
  }

  lemma BatchKeepsInv(hash: Hasher, depth: int, t: Tables, encryptor: bool, events: seq<LedgerEvent>)
    requires Inv(hash, depth, t) && Batch(t, encryptor, events).Ok?
    ensures Inv(hash, depth, Batch(t, encryptor, events).value.tables)
  {
    var t' := Batch(t, encryptor, events).value.tables;
    ApplyAllKeepsWellFormed(t, encryptor, StableSort(events, ByKey()));
    assert AllHex(t'.commitments);
    forall i | 0 <= i < |t'.roots|
      ensures RootSound(hash, depth, t'.commitments, t'.roots[i])
    {
      RootStaysSound(hash, depth, t.commitments, t'.commitments, t.roots[i]);
    }
  }

  /** When a checkpoint is taken, it is taken of everything stored. */
  lemma CheckpointKeepsInv(hash: Hasher, depth: int, t: Tables, added: seq<CommitmentRow>, ledger: Option<int>)
    requires Inv(hash, depth, t) && Checkpointed(hash, depth, t, added, ledger).Ok?
    ensures var t' := Checkpointed(hash, depth, t, added, ledger).value;
      && Inv(hash, depth, t') && t'.commitments == t.commitments && t'.nullifiers == t.nullifiers
      && (t' == t || (|t'.roots| == |t.roots| + 1 && t'.roots[..|t.roots|] == t.roots
          && t'.roots[|t.roots|].leafCount == |t.commitments|))
  {
    WellFormedIsInLeafOrder(t);
    var leaves := Values(t.commitments);
    assert leaves[..|leaves|] == leaves;
  }

  /** Rows and checkpoints, once committed, stay as they are. */
  ghost predicate Keeps(t: Tables, t': Tables) {
    t.commitments <= t'.commitments && t.nullifiers <= t'.nullifiers && t.roots <= t'.roots
  }

  lemma RunKeepsInv(hash: Hasher, depth: int, t: Tables, run: Run)
    requires Inv(hash, depth, t)
    ensures Inv(hash, depth, AfterRun(hash, depth, t, run)) && Keeps(t, AfterRun(hash, depth, t, run))
  {
    var batch := Batch(t, run.encryptor, Events(run));
    if batch.Ok? {
      BatchKeepsInv(hash, depth, t, run.encryptor, Events(run));
      var b := batch.value;
      var added := LeafOrder(InRange(b.tables.commitments, run.start, run.end));
      if b.commitments > 0 && Checkpointed(hash, depth, b.tables, added, Some(run.end)).Ok? {
        CheckpointKeepsInv(hash, depth, b.tables, added, Some(run.end));
      }
    }
  }

  ghost function AfterRun(hash: Hasher, depth: int, t: Tables, run: Run): Tables {
    match RangeSpec(hash, depth, t, run)
    case Ok(b) => b.tables
    case Err(_) => t
  }

  /** One entry of a history of calls: the call, whether it committed, and the
      tables it left. */
  datatype Entry = Entry(run: Run, ok: bool, tables: Tables)

  function Latest(log: seq<Entry>): Tables {
    if log == [] then Tables([], [], []) else log[|log| - 1].tables
  }

  ghost predicate Follows(hash: Hasher, depth: int, t: Tables, e: Entry) {
    e.ok == RangeSpec(hash, depth, t, e.run).Ok? && e.tables == AfterRun(hash, depth, t, e.run)
  }

  /** A history of calls on a database that started empty. */
  ghost predicate IsLog(hash: Hasher, depth: int, log: seq<Entry>) {
    log == [] ||
    (IsLog(hash, depth, log[..|log| - 1]) && Follows(hash, depth, Latest(log[..|log| - 1]), log[|log| - 1]))
  }

  /** Every sequence of calls has its history. */
  ghost function LogOf(hash: Hasher, depth: int, runs: seq<Run>): (log: seq<Entry>)
    ensures IsLog(hash, depth, log) && |log| == |runs|
    ensures forall i :: 0 <= i < |runs| ==> log[i].run == runs[i]
  {
    if runs == [] then []
    else
      var before := LogOf(hash, depth, runs[..|runs| - 1]);
      var run := runs[|runs| - 1];
      var t := Latest(before);
      var log := before + [Entry(run, RangeSpec(hash, depth, t, run).Ok?, AfterRun(hash, depth, t, run))];
      assert log[..|log| - 1] == before;
      log
  }

  /** For every history of calls on any ranges, with failures anywhere: leaf
      indices, distinctness and every checkpoint's root stay right. */
  lemma {:induction false} EveryRunKeepsInv(hash: Hasher, depth: int, log: seq<Entry>)
    requires IsLog(hash, depth, log)
    ensures Inv(hash, depth, Latest(log))
  {
    if log != [] {
      var last := |log| - 1;
      EveryRunKeepsInv(hash, depth, log[..last]);
      RunKeepsInv(hash, depth, Latest(log[..last]), log[last].run);
    }
  }

  /** A checkpoint or row committed at any moment is still there at every later
      moment; with the invariant, it is also still right. */
  lemma {:induction false} CheckpointsStay(hash: Hasher, depth: int, log: seq<Entry>, n: nat)
    requires IsLog(hash, depth, log) && n <= |log|
    ensures Keeps(Latest(log[..n]), Latest(log))
    decreases |log|
  {
    if n == |log| {
      assert log[..n] == log;
    } else {
      var last := |log| - 1;
      assert log[..last][..n] == log[..n];
      CheckpointsStay(hash, depth, log[..last], n);
      EveryRunKeepsInv(hash, depth, log[..last]);
      RunKeepsInv(hash, depth, Latest(log[..last]), log[last].run);
      KeepsIsTransitive(Latest(log[..n]), Latest(log[..last]), Latest(log));
    }
  }

  lemma KeepsIsTransitive(a: Tables, b: Tables, c: Tables)
    requires Keeps(a, b) && Keeps(b, c)
    ensures Keeps(a, c)
  {
  }

  /** Every stored state lacks the tags that resuming asks for, so resuming from any
      checkpoint rebuilds from the prefix, and appending then gives the full root. */
  lemma StoredCheckpointsAreRebuilt(hash: Hasher, depth: nat, log: seq<Entry>, i: nat, more: seq<nat>)
    requires IsLog(hash, depth, log) && i < |Latest(log).roots|
    requires more != [] && Latest(log).roots[i].leafCount + |more| <= Pow2(depth)
    ensures var t := Latest(log);
      && AllHex(t.commitments) && t.roots[i].leafCount <= |t.commitments|
      && !Tagged(t.roots[i].treeState, depth)
      && t.roots[i].treeState == TreeState(None, None, Some(depth), Some(seq(depth, (l: nat) => Zero(hash, l))))
      && var prefix := Values(t.commitments)[..t.roots[i].leafCount];
      && var rebuilt := Extend(hash, InitialFrontier(hash, depth), 0, prefix);
      && rebuilt.root == t.roots[i].root
      && Extend(hash, rebuilt.frontier, |prefix|, more).root == TreeRoot(hash, prefix + more, depth)
  {
    EveryRunKeepsInv(hash, depth, log);
    var t := Latest(log);
    var prefix := Values(t.commitments)[..t.roots[i].leafCount];
    AppendFromEmpty(hash, prefix, depth);
    ExtendIsTreeRoot(hash, Extend(hash, InitialFrontier(hash, depth), 0, prefix).frontier, prefix, more);
  }

  // ---------------------------------------------------------------------------
  // When the latest checkpoint covers every stored leaf.
  // ---------------------------------------------------------------------------

  /** The checkpoints ascend by ledger and by leaf count, and the last one covers
      every stored leaf. */
  ghost predicate Covered(t: Tables) {
    && (forall i, j :: 0 <= i < j < |t.roots| ==> t.roots[i].ledger < t.roots[j].ledger && t.roots[i].leafCount < t.roots[j].leafCount)
    && (forall i :: 0 <= i < |t.roots| ==> t.roots[i].leafCount <= |t.commitments|)
    && (t.commitments != [] ==> t.roots != [] && t.roots[|t.roots| - 1].leafCount == |t.commitments|)
  }

  ghost predicate CoversAll(t: Tables) {
    t.commitments == [] || exists i :: 0 <= i < |t.roots| && t.roots[i].leafCount == |t.commitments|
  }

  lemma NewRowsAreInRange(t: Tables, run: Run)
    requires Batch(t, run.encryptor, Events(run)).Ok?
    ensures var rows := Batch(t, run.encryptor, Events(run)).value.tables.commitments;
      forall i :: |t.commitments| <= i < |rows| ==> run.start <= rows[i].ledger <= run.end
  {
    var sorted := StableSort(Events(run), ByKey());
    SortKeepsMembers(Events(run), ByKey());
    var at := RowsCopyEvents(t, run.encryptor, sorted);
    var rows := Batch(t, run.encryptor, Events(run)).value.tables.commitments;
    forall i | |t.commitments| <= i < |rows|
      ensures run.start <= rows[i].ledger <= run.end
    {
      var e := sorted[at[i - |t.commitments|]];
      assert RowFrom(rows[i], e) && e in sorted;
      assert Wanted(run, e);
    }
  }

  /** The checkpoint step of a call that added rows: one checkpoint of everything
      stored, unless the ledger already has one. */
  lemma CheckpointShape(hash: Hasher, depth: int, t: Tables, added: seq<CommitmentRow>, ledger: int)
    requires WellFormed(t) && added != [] && Checkpointed(hash, depth, t, added, Some(ledger)).Ok?
    ensures var t' := Checkpointed(hash, depth, t, added, Some(ledger)).value;
      && t'.commitments == t.commitments && t'.nullifiers == t.nullifiers
      && (HasRoot(t, ledger) ==> t'.roots == t.roots)
      && (!HasRoot(t, ledger) ==> IsCheckpointOf(t.roots, t'.roots, ledger, |t.commitments|))
  {
    WellFormedIsInLeafOrder(t);
  }

  lemma AddedIsNotEmpty(t: Tables, run: Run)
    requires Batch(t, run.encryptor, Events(run)).Ok? && Batch(t, run.encryptor, Events(run)).value.commitments > 0
    ensures LeafOrder(InRange(Batch(t, run.encryptor, Events(run)).value.tables.commitments, run.start, run.end)) != []
  {
    NewRowsAreInRange(t, run);
    var rows := Batch(t, run.encryptor, Events(run)).value.tables.commitments;
    assert run.start <= rows[|t.commitments|].ledger <= run.end;
  }

  /** The shape of a successful call's effect: the batch's rows, and one checkpoint
      of everything stored unless nothing was added or the ledger already has one. */
  lemma RunShape(hash: Hasher, depth: int, t: Tables, run: Run)
    requires Inv(hash, depth, t) && RangeSpec(hash, depth, t, run).Ok?
    ensures var b, t' := Batch(t, run.encryptor, Events(run)).value, AfterRun(hash, depth, t, run);
      && RangeSpec(hash, depth, t, run).value.commitments == b.commitments
      && t'.commitments == b.tables.commitments && t'.nullifiers == b.tables.nullifiers
      && |t'.commitments| == |t.commitments| + b.commitments
      && (b.commitments == 0 || HasRoot(t, run.end) ==> t'.roots == t.roots)
      && (b.commitments > 0 && !HasRoot(t, run.end) ==> IsCheckpointOf(t.roots, t'.roots, run.end, |t'.commitments|))
  {
    var b := Batch(t, run.encryptor, Events(run)).value;
    if b.commitments > 0 {
      ApplyAllKeepsWellFormed(t, run.encryptor, StableSort(Events(run), ByKey()));
      AddedIsNotEmpty(t, run);
      CheckpointShape(hash, depth, b.tables, LeafOrder(InRange(b.tables.commitments, run.start, run.end)), run.end);
    }
  }

  ghost predicate IsCheckpointOf(roots: seq<Checkpoint>, roots': seq<Checkpoint>, ledger: int, leafCount: nat) {
    && |roots'| == |roots| + 1 && roots'[..|roots|] == roots
    && roots'[|roots|].ledger == ledger && roots'[|roots|].leafCount == leafCount
  }

  /** The call's events hold a valid deposit of which the tables know neither the
      event nor the commitment. */
  ghost predicate BringsNew(t: Tables, run: Run) {
    exists e :: e in Events(run) && IsNew(t, e)
  }

  /** Exactly when a successful call leaves some checkpoint covering every leaf: when
      it brings a new deposit, its last ledger must have no checkpoint yet; when it
      brings none, coverage must hold already. */
  lemma CoverageExactly(hash: Hasher, depth: int, t: Tables, run: Run)
    requires Inv(hash, depth, t) && RangeSpec(hash, depth, t, run).Ok?
    ensures CoversAll(RangeSpec(hash, depth, t, run).value.tables) <==>
      if BringsNew(t, run) then !HasRoot(t, run.end) else CoversAll(t)
  {
    RunShape(hash, depth, t, run);
    BatchAddsExactlyWhenNew(t, run.encryptor, Events(run));
    var t' := AfterRun(hash, depth, t, run);
    if BringsNew(t, run) {
      if !HasRoot(t, run.end) {
        assert t'.roots[|t.roots|].leafCount == |t'.commitments|;
      } else {
        assert forall i :: 0 <= i < |t'.roots| ==> RootSound(hash, depth, t.commitments, t'.roots[i]);
      }
    }
  }

  /** A finished call above every earlier one leaves the checkpoints covering. */
  lemma FreshRunCovers(hash: Hasher, depth: int, t: Tables, run: Run)
    requires Inv(hash, depth, t) && Covered(t) && RangeSpec(hash, depth, t, run).Ok?
    requires forall i :: 0 <= i < |t.roots| ==> t.roots[i].ledger < run.start
    ensures var t' := AfterRun(hash, depth, t, run);
      Covered(t') && forall i :: |t.roots| <= i < |t'.roots| ==> t'.roots[i].ledger == run.end
  {
    RunShape(hash, depth, t, run);
    NewRowsAreInRange(t, run);
    var t' := AfterRun(hash, depth, t, run);
    if |t'.commitments| > |t.commitments| {
      assert run.start <= t'.commitments[|t.commitments|].ledger <= run.end;
      CheckpointCovers(t, t', run.end);
    }
  }

  lemma CheckpointCovers(t: Tables, t': Tables, ledger: int)
    requires Covered(t) && |t'.commitments| > |t.commitments|
    requires IsCheckpointOf(t.roots, t'.roots, ledger, |t'.commitments|)
    requires forall i :: 0 <= i < |t.roots| ==> t.roots[i].ledger < ledger
    ensures Covered(t') && forall i :: |t.roots| <= i < |t'.roots| ==> t'.roots[i].ledger == ledger
  {
    assert forall i :: 0 <= i < |t.roots| ==> t'.roots[..|t.roots|][i] == t'.roots[i];
  }

  lemma FreshRunKeepsLedgerOrder(hash: Hasher, depth: int, t: Tables, run: Run)
    requires Inv(hash, depth, t) && InLedgerOrder(t.commitments) && RangeSpec(hash, depth, t, run).Ok?
    requires forall i :: 0 <= i < |t.commitments| ==> t.commitments[i].ledger < run.start
    ensures var rows := AfterRun(hash, depth, t, run).commitments;
      && InLedgerOrder(rows)
      && forall i :: |t.commitments| <= i < |rows| ==> rows[i].ledger <= run.end
  {
    var sorted := StableSort(Events(run), ByKey());
    SortKeepsMembers(Events(run), ByKey());
    ByKeyIsTotalPreorder();
    SortIsSorted(Events(run), ByKey());
    LeavesFollowLedgers(t, run.encryptor, sorted);
    NewRowsAreInRange(t, run);
    RunShape(hash, depth, t, run);
  }

  lemma FreshRunEffect(hash: Hasher, depth: int, t: Tables, run: Run)
    requires Inv(hash, depth, t) && Covered(t) && InLedgerOrder(t.commitments) && RangeSpec(hash, depth, t, run).Ok?
    requires forall i :: 0 <= i < |t.roots| ==> t.roots[i].ledger < run.start
    requires forall i :: 0 <= i < |t.commitments| ==> t.commitments[i].ledger < run.start
    ensures var t' := AfterRun(hash, depth, t, run);
      && Keeps(t, t') && Covered(t') && InLedgerOrder(t'.commitments)
      && (forall i :: |t.roots| <= i < |t'.roots| ==> t'.roots[i].ledger == run.end)
      && (forall i :: |t.commitments| <= i < |t'.commitments| ==> t'.commitments[i].ledger <= run.end)
  {
    RunKeepsInv(hash, depth, t, run);
    FreshRunCovers(hash, depth, t, run);
    FreshRunKeepsLedgerOrder(hash, depth, t, run);
  }

  // ---------------------------------------------------------------------------
  // Ascending ranges with repeats.
  // ---------------------------------------------------------------------------

  /** A call on a range above every finished one. */
  ghost predicate IsFresh(log: seq<Entry>, i: nat)
    requires i < |log|
  {
    forall j :: 0 <= j < i && log[j].ok ==> log[j].run.end < log[i].run.start
  }

  ghost predicate Processed(log: seq<Entry>, e: LedgerEvent) {
    exists j :: 0 <= j < |log| && log[j].ok && e in Events(log[j].run)
  }

  /** A call that finds only events that finished calls found. */
  ghost predicate IsRepeat(log: seq<Entry>, i: nat)
    requires i < |log|
  {
    forall e :: e in Events(log[i].run) ==> Processed(log[..i], e)
  }

  /** Ascending disjoint ranges, with repeats of finished ones in between. */
  ghost predicate Scheduled(log: seq<Entry>) {
    forall i: nat :: i < |log| ==> IsFresh(log, i) || IsRepeat(log, i)
  }

  /** Calling again on part of a finished range of the same chain is a repeat. */
  lemma SubrangeIsRepeat(log: seq<Entry>, i: nat, j: nat)
    requires j < i < |log| && log[j].ok && log[i].run.chain == log[j].run.chain
    requires log[j].run.start <= log[i].run.start && log[i].run.end <= log[j].run.end
    ensures IsRepeat(log, i)
  {
    forall e | e in Events(log[i].run)
      ensures Processed(log[..i], e)
    {
      assert log[..i][j] == log[j];
      assert e in Events(log[j].run);
    }
  }

  ghost predicate EndOfFinished(log: seq<Entry>, ledger: int) {
    exists j :: 0 <= j < |log| && log[j].ok && ledger == log[j].run.end
  }

  ghost predicate BelowFinished(log: seq<Entry>, ledger: int) {
    exists j :: 0 <= j < |log| && log[j].ok && ledger <= log[j].run.end
  }

  /** What holds along a schedule: coverage, ledger order, what bounds the stored
      ledgers, and that every finished call's events are in. */
  ghost predicate Along(log: seq<Entry>) {
    var t := Latest(log);
    && Covered(t)
    && InLedgerOrder(t.commitments)
    && (forall i :: 0 <= i < |t.roots| ==> EndOfFinished(log, t.roots[i].ledger))
    && (forall i :: 0 <= i < |t.commitments| ==> BelowFinished(log, t.commitments[i].ledger))
    && (forall e :: Processed(log, e) ==> Absorbed(t, e) && (e.payload.Dict? ==> e.payload.index.Position?))
  }

  lemma PrefixIsScheduled(log: seq<Entry>)
    requires log != [] && Scheduled(log)
    ensures Scheduled(log[..|log| - 1])
  {
    var n := |log| - 1;
    forall i: nat | i < n
      ensures IsFresh(log[..n], i) || IsRepeat(log[..n], i)
    {
      assert log[..n][..i] == log[..i];
      assert IsFresh(log, i) || IsRepeat(log, i);
    }
  }

  lemma HistoryGrows(log: seq<Entry>)
    requires log != []
    ensures var before := log[..|log| - 1];
      && (forall l :: EndOfFinished(before, l) ==> EndOfFinished(log, l))
      && (forall l :: BelowFinished(before, l) ==> BelowFinished(log, l))
      && (forall e :: Processed(log, e) ==>
            Processed(before, e) || (log[|log| - 1].ok && e in Events(log[|log| - 1].run)))
  {
    var before := log[..|log| - 1];
    forall l | EndOfFinished(before, l)
      ensures EndOfFinished(log, l)
    {
      var j :| 0 <= j < |before| && before[j].ok && l == before[j].run.end;
      assert log[j] == before[j];
    }
    forall l | BelowFinished(before, l)
      ensures BelowFinished(log, l)
    {
      var j :| 0 <= j < |before| && before[j].ok && l <= before[j].run.end;
      assert log[j] == before[j];
    }
    forall e | Processed(log, e)
      ensures Processed(before, e) || (log[|log| - 1].ok && e in Events(log[|log| - 1].run))
    {
      var j :| 0 <= j < |log| && log[j].ok && e in Events(log[j].run);
      if j < |before| {
        assert before[j] == log[j];
      }
    }
  }

  /** A repeat returns (0, 0) and leaves the tables as they were. */
  lemma RepeatChangesNothing(hash: Hasher, depth: int, log: seq<Entry>, run: Run)
    requires Along(log) && forall e :: e in Events(run) ==> Processed(log, e)
    ensures RangeSpec(hash, depth, Latest(log), run) == Ok(Indexed(Latest(log), 0, 0))
  {
    AbsorbedBatch(Latest(log), run.encryptor, Events(run));
  }

  lemma RunEventsAreIn(hash: Hasher, depth: int, t: Tables, run: Run)
    requires Inv(hash, depth, t) && RangeSpec(hash, depth, t, run).Ok?
    ensures var t' := AfterRun(hash, depth, t, run);
      forall e :: e in Events(run) ==> Absorbed(t', e) && (e.payload.Dict? ==> e.payload.index.Position?)
  {
    RunShape(hash, depth, t, run);
    BatchAbsorbs(t, run.encryptor, Events(run));
    var b, t' := Batch(t, run.encryptor, Events(run)).value.tables, AfterRun(hash, depth, t, run);
    forall e | e in Events(run)
      ensures Absorbed(t', e)
    {
      AbsorbedStays(b, t', e);
    }
  }

  lemma FreshBounds(log: seq<Entry>)
    requires log != [] && IsFresh(log, |log| - 1) && Along(log[..|log| - 1])
    ensures var t, start := Latest(log[..|log| - 1]), log[|log| - 1].run.start;
      && (forall i :: 0 <= i < |t.roots| ==> t.roots[i].ledger < start)
      && (forall i :: 0 <= i < |t.commitments| ==> t.commitments[i].ledger < start)
  {
    var before, start := log[..|log| - 1], log[|log| - 1].run.start;
    forall l: int
      ensures EndOfFinished(before, l) || BelowFinished(before, l) ==> l < start
    {
      if EndOfFinished(before, l) {
        var j :| 0 <= j < |before| && before[j].ok && l == before[j].run.end;
        assert log[j] == before[j];
      } else if BelowFinished(before, l) {
        var j :| 0 <= j < |before| && before[j].ok && l <= before[j].run.end;
        assert log[j] == before[j];
      }
    }
  }

  lemma AbsorbedStaysForAll(t: Tables, t': Tables)
    requires Keeps(t, t')
    ensures forall e :: Absorbed(t, e) ==> Absorbed(t', e)
  {
    forall e | Absorbed(t, e)
      ensures Absorbed(t', e)
    {
      AbsorbedStays(t, t', e);
    }
  }

  /** A finished fresh call keeps what the tables are bounded by. */
  lemma FinishedRunTables(hash: Hasher, depth: int, log: seq<Entry>)
    requires log != [] && IsLog(hash, depth, log) && Along(log[..|log| - 1])
    requires log[|log| - 1].ok && IsFresh(log, |log| - 1)
    ensures var t := Latest(log);
      && Covered(t) && InLedgerOrder(t.commitments)
      && (forall i :: 0 <= i < |t.roots| ==> EndOfFinished(log, t.roots[i].ledger))
      && (forall i :: 0 <= i < |t.commitments| ==> BelowFinished(log, t.commitments[i].ledger))
  {
    var before, last := log[..|log| - 1], log[|log| - 1];
    EveryRunKeepsInv(hash, depth, before);
    FreshBounds(log);
    FreshRunEffect(hash, depth, Latest(before), last.run);
    HistoryGrows(log);
  }

  /** A finished call keeps every processed event accounted for. */
  lemma FinishedRunEvents(hash: Hasher, depth: int, log: seq<Entry>)
    requires log != [] && IsLog(hash, depth, log) && Along(log[..|log| - 1]) && log[|log| - 1].ok
    ensures forall e :: Processed(log, e) ==> Absorbed(Latest(log), e) && (e.payload.Dict? ==> e.payload.index.Position?)
  {
    var before, last := log[..|log| - 1], log[|log| - 1];
    EveryRunKeepsInv(hash, depth, before);
    RunKeepsInv(hash, depth, Latest(before), last.run);
    HistoryGrows(log);
    RunEventsAreIn(hash, depth, Latest(before), last.run);
    AbsorbedStaysForAll(Latest(before), Latest(log));
  }

  lemma FinishedRunStep(hash: Hasher, depth: int, log: seq<Entry>)
    requires log != [] && IsLog(hash, depth, log) && Along(log[..|log| - 1])
    requires log[|log| - 1].ok && IsFresh(log, |log| - 1)
    ensures Along(log)
  {
    FinishedRunTables(hash, depth, log);
    FinishedRunEvents(hash, depth, log);
  }

  /** Over ascending disjoint ranges with arbitrary repeats of finished ones, and
      failures anywhere, the latest checkpoint covers every stored leaf, the
      checkpoints ascend, and the leaves follow ledger order. */
  lemma {:induction false} ScheduledRunsAreCovered(hash: Hasher, depth: int, log: seq<Entry>)
    requires IsLog(hash, depth, log) && Scheduled(log)
    ensures Along(log) && Covered(Latest(log)) && InLedgerOrder(Latest(log).commitments)
  {
    if log != [] {
      var before, last := log[..|log| - 1], log[|log| - 1];
      PrefixIsScheduled(log);
      ScheduledRunsAreCovered(hash, depth, before);
      assert IsFresh(log, |log| - 1) || IsRepeat(log, |log| - 1);
      if last.ok && !IsRepeat(log, |log| - 1) {
        FinishedRunStep(hash, depth, log);
      } else {
        HistoryGrows(log);
        if last.ok {
          RepeatChangesNothing(hash, depth, before, last.run);
        }
        assert Latest(log) == Latest(before);
      }
    }
  }

  // ---------------------------------------------------------------------------
  // Histories that lose what the documentation promises.
  // ---------------------------------------------------------------------------

  const EMPTY_TABLES := Tables([], [], [])

  /** A well-formed deposit without private inputs. */
  predicate IsPublic(e: LedgerEvent) {
    && e.eventType.NoteDeposited? && e.payload.Dict? && ValidHex64(e.payload.commitment)
    && e.payload.index.Position? && !e.payload.hasPrivate
  }

  /** What a call finds besides one event was processed before and sorts first. */
  ghost predicate OnlyNews(t: Tables, run: Run, seen: seq<LedgerEvent>, e: LedgerEvent) {
    && run.chain == seen + [e] && Wanted(run, e)
    && (forall f :: f in seen && Wanted(run, f) ==> Absorbed(t, f) && Before(f, e) && Parsable([f]))
    && IsNew(t, e) && IsPublic(e)
  }

  lemma OneNewDeposit(t: Tables, encryptor: bool, e: LedgerEvent)
    requires IsNew(t, e) && IsPublic(e)
    ensures Batch(t, encryptor, [e]) == Ok(Indexed(t.(commitments := t.commitments + [NewCommitment(t, e)]), 1, 0))
  {
    assert StableSort([e], ByKey()) == [e];
    assert [e][..0] == [];
    assert ApplyAll(t, encryptor, [e]) == Apply(t, encryptor, e);
  }

  lemma OneNewDepositAmongOld(t: Tables, run: Run, seen: seq<LedgerEvent>, e: LedgerEvent)
    requires OnlyNews(t, run, seen, e)
    ensures Batch(t, run.encryptor, Events(run)) == Ok(Indexed(t.(commitments := t.commitments + [NewCommitment(t, e)]), 1, 0))
  {
    var fetched := Fetch(run, |seen|);
    FetchMembers(run, |seen|);
    assert run.chain[..|seen|] == seen;
    assert Events(run) == fetched + [e];
    forall f | f in fetched
      ensures Absorbed(t, f) && Before(f, e) && Parsable([f])
    {
    }
    forall f | f in fetched && f.payload.Dict?
      ensures f.payload.index.Position?
    {
      assert f in [f];
    }
    AbsorbedBatch(t, run.encryptor, fetched);
    BatchesCompose(t, run.encryptor, fetched, [e]);
    OneNewDeposit(t, run.encryptor, e);
  }

  lemma CheckpointSucceeds(hash: Hasher, depth: int, t: Tables, added: seq<CommitmentRow>, ledger: int)
    requires WellFormed(t) && ValidDepth(depth) && |t.commitments| <= Pow2(depth)
    ensures Checkpointed(hash, depth, t, added, Some(ledger)).Ok?
  {
    WellFormedIsInLeafOrder(t);
  }

  lemma OneNewDepositSucceeds(hash: Hasher, depth: int, t: Tables, run: Run, seen: seq<LedgerEvent>, e: LedgerEvent)
    requires WellFormed(t) && ValidDepth(depth) && |t.commitments| < Pow2(depth) && OnlyNews(t, run, seen, e)
    ensures RangeSpec(hash, depth, t, run).Ok?
  {
    OneNewDepositAmongOld(t, run, seen, e);
    ApplyAllKeepsWellFormed(t, run.encryptor, StableSort(Events(run), ByKey()));
    var b := Batch(t, run.encryptor, Events(run)).value;
    CheckpointSucceeds(hash, depth, b.tables, LeafOrder(InRange(b.tables.commitments, run.start, run.end)), run.end);
  }

  lemma OneNewDepositRun(hash: Hasher, depth: int, t: Tables, run: Run, seen: seq<LedgerEvent>, e: LedgerEvent)
    requires Inv(hash, depth, t) && ValidDepth(depth) && |t.commitments| < Pow2(depth) && OnlyNews(t, run, seen, e)
    ensures RangeSpec(hash, depth, t, run).Ok?
    ensures AfterRun(hash, depth, t, run).commitments == t.commitments + [NewCommitment(t, e)]
    ensures HasRoot(AfterRun(hash, depth, t, run), run.end)
  {
    OneNewDepositSucceeds(hash, depth, t, run, seen, e);
    OneNewDepositAmongOld(t, run, seen, e);
    RunShape(hash, depth, t, run);
    var t' := AfterRun(hash, depth, t, run);
    if !HasRoot(t, run.end) {
      assert t'.roots[|t.roots|].ledger == run.end;
    }
  }

  /** A history grows by what its last call did. */
  lemma LogGrows(hash: Hasher, depth: int, runs: seq<Run>, run: Run)
    ensures var t := Latest(LogOf(hash, depth, runs));
      LogOf(hash, depth, runs + [run])
        == LogOf(hash, depth, runs) + [Entry(run, RangeSpec(hash, depth, t, run).Ok?, AfterRun(hash, depth, t, run))]
  {
    assert (runs + [run])[..|runs|] == runs;
  }

  lemma OneRun(hash: Hasher, depth: int, run: Run)
    ensures LogOf(hash, depth, [run])
      == [Entry(run, RangeSpec(hash, depth, EMPTY_TABLES, run).Ok?, AfterRun(hash, depth, EMPTY_TABLES, run))]
  {
    LogGrows(hash, depth, [], run);
    assert [] + [run] == [run];
  }

  /** The history of two calls. */
  lemma TwoRuns(hash: Hasher, depth: int, first: Run, second: Run)
    ensures var t := AfterRun(hash, depth, EMPTY_TABLES, first);
      LogOf(hash, depth, [first, second]) == [
        Entry(first, RangeSpec(hash, depth, EMPTY_TABLES, first).Ok?, t),
        Entry(second, RangeSpec(hash, depth, t, second).Ok?, AfterRun(hash, depth, t, second))]
  {
    OneRun(hash, depth, first);
    LogGrows(hash, depth, [first], second);
    assert [first] + [second] == [first, second];
  }

  lemma FirstDeposit(hash: Hasher, depth: int, run: Run, e: LedgerEvent)
    requires ValidDepth(depth) && run.chain == [e] && Wanted(run, e) && IsPublic(e)
    ensures var t := AfterRun(hash, depth, EMPTY_TABLES, run);
      && RangeSpec(hash, depth, EMPTY_TABLES, run).Ok? && Inv(hash, depth, t) && HasRoot(t, run.end)
      && t.commitments == [NewCommitment(EMPTY_TABLES, e)] && |t.roots| == 1 && t.roots[0].leafCount == 1
  {
    assert Inv(hash, depth, EMPTY_TABLES) && OnlyNews(EMPTY_TABLES, run, [], e);
    OneNewDepositRun(hash, depth, EMPTY_TABLES, run, [], e);
    RunShape(hash, depth, EMPTY_TABLES, run);
    RunKeepsInv(hash, depth, EMPTY_TABLES, run);
  }

  /** Two deposits of one chain, the second one found by the second call only. */
  ghost predicate FoundLater(first: Run, second: Run, a: LedgerEvent, b: LedgerEvent) {
    && first.chain == [a] && second.chain == [a, b]
    && IsPublic(a) && IsPublic(b) && a.eventHash != b.eventHash && a.payload.commitment != b.payload.commitment
    && Wanted(first, a) && Wanted(second, b) && (Wanted(second, a) ==> Before(a, b))
  }

  lemma SecondDeposit(hash: Hasher, depth: int, t: Tables, first: Run, second: Run, a: LedgerEvent, b: LedgerEvent)
    requires ValidDepth(depth) && FoundLater(first, second, a, b)
    requires Inv(hash, depth, t) && t.commitments == [NewCommitment(EMPTY_TABLES, a)]
    ensures RangeSpec(hash, depth, t, second).Ok? && BringsNew(t, second)
    ensures AfterRun(hash, depth, t, second).commitments == t.commitments + [NewCommitment(t, b)]
  {
    assert t.commitments[0].eventHash == a.eventHash;
    assert Absorbed(t, a) && Parsable([a]) && IsNew(t, b);
    assert second.chain[..2] == second.chain && second.chain[1] == b;
    assert Pow2(depth) >= 2;
    OneNewDepositRun(hash, depth, t, second, [a], b);
  }

  /** Both calls succeed, and the two leaves copy the deposits in the order in which
      they were found. */
  lemma TwoDeposits(hash: Hasher, depth: int, first: Run, second: Run, a: LedgerEvent, b: LedgerEvent)
    requires ValidDepth(depth) && FoundLater(first, second, a, b)
    ensures var log := LogOf(hash, depth, [first, second]);
      log[0].ok && log[1].ok && Sources(Latest(log).commitments, [a, b])
  {
    TwoRuns(hash, depth, first, second);
    FirstDeposit(hash, depth, first, a);
    var t := AfterRun(hash, depth, EMPTY_TABLES, first);
    SecondDeposit(hash, depth, t, first, second, a, b);
    TwoSources(t, a, b);
  }

  lemma TwoSources(t: Tables, a: LedgerEvent, b: LedgerEvent)
    requires IsPublic(a) && IsPublic(b) && t.commitments == [NewCommitment(EMPTY_TABLES, a)]
    ensures Sources(t.commitments + [NewCommitment(t, b)], [a, b])
  {
  }

  /** When both calls end at one ledger, the second deposit stays uncovered. */
  lemma SecondIsUncovered(hash: Hasher, depth: int, first: Run, second: Run, a: LedgerEvent, b: LedgerEvent)
    requires ValidDepth(depth) && FoundLater(first, second, a, b) && first.end == second.end
    ensures !CoversAll(Latest(LogOf(hash, depth, [first, second])))
  {
    TwoRuns(hash, depth, first, second);
    FirstDeposit(hash, depth, first, a);
    var t := AfterRun(hash, depth, EMPTY_TABLES, first);
    SecondDeposit(hash, depth, t, first, second, a, b);
    CoverageExactly(hash, depth, t, second);
  }

  /** A public deposit at position 0 of a ledger. */
  function Deposit(eventHash: string, ledger: int, commitment: string): (e: LedgerEvent)
    ensures Hex.IsHex64(commitment) ==> IsPublic(e)
  {
    LedgerEvent(eventHash, ledger, "tx", NoteDeposited, Dict(Position(0), Text(commitment), Missing, false))
  }

  /** A deposit of ledger 15 that is found when ledgers 10 to 20 are indexed again is
      stored, and no checkpoint covers it. */
  lemma LateDepositIsUncovered(hash: Hasher, depth: int, c: string, d: string)
    requires ValidDepth(depth) && Hex.IsHex64(c) && Hex.IsHex64(d) && c != d
    ensures var a, b := Deposit("a", 12, c), Deposit("b", 15, d);
      var log := LogOf(hash, depth, [Run(10, 20, false, [a]), Run(10, 20, false, [a, b])]);
      log[0].ok && log[1].ok && |Latest(log).commitments| == 2 && !CoversAll(Latest(log))
  {
    var a, b := Deposit("a", 12, c), Deposit("b", 15, d);
    TwoDeposits(hash, depth, Run(10, 20, false, [a]), Run(10, 20, false, [a, b]), a, b);
    SecondIsUncovered(hash, depth, Run(10, 20, false, [a]), Run(10, 20, false, [a, b]), a, b);
  }

  /** Ledgers 1 to 9 indexed after ledgers 10 to 20 leave the leaves out of order. */
  lemma EarlierRangeBreaksOrder(hash: Hasher, depth: int, c: string, d: string)
    requires ValidDepth(depth) && Hex.IsHex64(c) && Hex.IsHex64(d) && c != d
    ensures var a, b := Deposit("a", 12, c), Deposit("b", 3, d);
      var log := LogOf(hash, depth, [Run(10, 20, false, [a]), Run(1, 9, false, [a, b])]);
      log[0].ok && log[1].ok && !InLedgerOrder(Latest(log).commitments)
  {
    var a, b := Deposit("a", 12, c), Deposit("b", 3, d);
    TwoDeposits(hash, depth, Run(10, 20, false, [a]), Run(1, 9, false, [a, b]), a, b);
    var rows := Latest(LogOf(hash, depth, [Run(10, 20, false, [a]), Run(1, 9, false, [a, b])])).commitments;
    assert RowFrom(rows[0], [a, b][0]) && RowFrom(rows[1], [a, b][1]);
  }

  /** Two deposits of one ledger whose payloads carry no position, and so count as
      position 0, both become leaves: their order is not strictly ascending. */
  lemma TiedDepositsShareAPosition(hash: Hasher, depth: int, c: string, d: string)
    requires ValidDepth(depth) && Hex.IsHex64(c) && Hex.IsHex64(d) && c != d
    ensures var a, b := Deposit("a", 12, c), Deposit("b", 12, d);
      var log := LogOf(hash, depth, [Run(10, 20, false, [a]), Run(10, 20, false, [a, b])]);
      log[0].ok && log[1].ok && Sources(Latest(log).commitments, [a, b]) && !Ascending([a, b])
  {
    var a, b := Deposit("a", 12, c), Deposit("b", 12, d);
    TwoDeposits(hash, depth, Run(10, 20, false, [a]), Run(10, 20, false, [a, b]), a, b);
    assert !Precedes([a, b][0], [a, b][1]);
  }
}
