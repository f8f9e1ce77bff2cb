/** Indexing shielded-note events (app/services/note_parser.py).

    A batch is a fold over the two tables.  The session flushes before every query,
    so an event sees the rows that earlier events of its own batch added. */
module NoteParser {
  import opened Results
  import opened Sorting
  import opened Merkle
  import Hex

  // ---------------------------------------------------------------------------
  // Events and tables.
  // ---------------------------------------------------------------------------

  datatype EventType = NoteDeposited | NullifierSpent | OtherType

  /** A payload entry: absent, text, or some other JSON value. */
  datatype Field = Missing | Text(value: string) | NotText

  /** `int(payload.get("index", 0) or 0)`, which raises on text that is no number. */
  datatype Index = Position(value: int) | Unparsable

  datatype Payload = NotADict | Dict(index: Index, commitment: Field, nullifier: Field, hasPrivate: bool)

  datatype LedgerEvent = LedgerEvent(eventHash: string, ledger: int, txHash: string, eventType: EventType, payload: Payload)

  datatype CommitmentRow = CommitmentRow(commitment: string, leafIndex: int, ledger: int, txHash: string, eventHash: string, sealed: bool)

  datatype NullifierRow = NullifierRow(nullifier: string, ledger: int, txHash: string, eventHash: string, sealed: bool)

  datatype Tables = Tables(commitments: seq<CommitmentRow>, nullifiers: seq<NullifierRow>, roots: seq<Checkpoint>)

  datatype IndexError = UnparsableIndex | NoEncryptor | DuplicateSpendEvent | TreeError(error: MerkleError)

  predicate HasEvent(t: Tables, eventHash: string) {
    exists i :: 0 <= i < |t.commitments| && t.commitments[i].eventHash == eventHash
  }

  predicate HasCommitment(t: Tables, commitment: string) {
    exists i :: 0 <= i < |t.commitments| && t.commitments[i].commitment == commitment
  }

  predicate HasNullifier(t: Tables, nullifier: string) {
    exists i :: 0 <= i < |t.nullifiers| && t.nullifiers[i].nullifier == nullifier
  }

  predicate HasSpendEvent(t: Tables, eventHash: string) {
    exists i :: 0 <= i < |t.nullifiers| && t.nullifiers[i].eventHash == eventHash
  }

  /** The largest leaf index, or -1 for an empty table. */
  function MaxLeaf(rows: seq<CommitmentRow>): int {
    if rows == [] then -1
    else
      var before, last := MaxLeaf(rows[..|rows| - 1]), rows[|rows| - 1].leafIndex;
      if before > last then before else last
  }

  predicate ValidHex64(field: Field) {
    field.Text? && Hex.IsHex64(field.value)
  }

  // ---------------------------------------------------------------------------
  // One event.
  // ---------------------------------------------------------------------------

  function NewCommitment(t: Tables, e: LedgerEvent): CommitmentRow
    requires e.payload.Dict? && e.payload.commitment.Text?
  {
    CommitmentRow(e.payload.commitment.value, MaxLeaf(t.commitments) + 1, e.ledger, e.txHash, e.eventHash, e.payload.hasPrivate)
  }

  function NewNullifier(e: LedgerEvent): NullifierRow
    requires e.payload.Dict? && e.payload.nullifier.Text?
  {
    NullifierRow(e.payload.nullifier.value, e.ledger, e.txHash, e.eventHash, e.payload.hasPrivate)
  }

  /** Rows are only ever added at the end. */
  ghost predicate Grows(t: Tables, t': Tables) {
    t.commitments <= t'.commitments && t.nullifiers <= t'.nullifiers && t.roots == t'.roots
  }

  function Apply(t: Tables, encryptor: bool, e: LedgerEvent): (r: Result<Tables, IndexError>)
    ensures r.Ok? ==> Grows(t, r.value)
  {
    if e.payload.NotADict? then Ok(t)
    else match e.eventType
      case NoteDeposited =>
        if !ValidHex64(e.payload.commitment) then Ok(t)
        else if HasEvent(t, e.eventHash) || HasCommitment(t, e.payload.commitment.value) then Ok(t)
        else if e.payload.hasPrivate && !encryptor then Err(NoEncryptor)
        else Ok(t.(commitments := t.commitments + [NewCommitment(t, e)]))
      case NullifierSpent =>
        if !ValidHex64(e.payload.nullifier) then Ok(t)
        else if HasNullifier(t, e.payload.nullifier.value) then Ok(t)
        else if e.payload.hasPrivate && !encryptor then Err(NoEncryptor)
        else if HasSpendEvent(t, e.eventHash) then Err(DuplicateSpendEvent)
        else Ok(t.(nullifiers := t.nullifiers + [NewNullifier(e)]))
      case OtherType => Ok(t)
  }

  /** The event would be skipped: it is malformed, of another type, or already in. */
  ghost predicate Absorbed(t: Tables, e: LedgerEvent) {
    || e.payload.NotADict?
    || e.eventType.OtherType?
    || (e.eventType.NoteDeposited? && (ValidHex64(e.payload.commitment) ==>
          HasEvent(t, e.eventHash) || HasCommitment(t, e.payload.commitment.value)))
    || (e.eventType.NullifierSpent? && (ValidHex64(e.payload.nullifier) ==> HasNullifier(t, e.payload.nullifier.value)))
  }

  lemma ApplyAbsorbs(t: Tables, encryptor: bool, e: LedgerEvent)
    requires Apply(t, encryptor, e).Ok?
    ensures Absorbed(Apply(t, encryptor, e).value, e)
  {
    var t' := Apply(t, encryptor, e).value;
    if |t'.commitments| > |t.commitments| {
      assert t'.commitments[|t.commitments|] == NewCommitment(t, e);
    }
    if |t'.nullifiers| > |t.nullifiers| {
      assert t'.nullifiers[|t.nullifiers|] == NewNullifier(e);
    }
  }

  lemma AbsorbedStays(t: Tables, t': Tables, e: LedgerEvent)
    requires t.commitments <= t'.commitments && t.nullifiers <= t'.nullifiers && Absorbed(t, e)
    ensures Absorbed(t', e)
  {
    if e.payload.Dict? && e.eventType.NoteDeposited? && ValidHex64(e.payload.commitment) {
      var i :| 0 <= i < |t.commitments| &&
        (t.commitments[i].eventHash == e.eventHash || t.commitments[i].commitment == e.payload.commitment.value);
      assert t'.commitments[i] == t.commitments[i];
    } else if e.payload.Dict? && e.eventType.NullifierSpent? && ValidHex64(e.payload.nullifier) {
      var i :| 0 <= i < |t.nullifiers| && t.nullifiers[i].nullifier == e.payload.nullifier.value;
      assert t'.nullifiers[i] == t.nullifiers[i];
    }
  }

  // ---------------------------------------------------------------------------
  // A list of events, in order.
  // ---------------------------------------------------------------------------

  function ApplyAll(t: Tables, encryptor: bool, events: seq<LedgerEvent>): (r: Result<Tables, IndexError>)
    ensures r.Ok? ==> Grows(t, r.value)
  {
    if events == [] then Ok(t)
    else
      var before := ApplyAll(t, encryptor, events[..|events| - 1]);
      if before.Err? then before else Apply(before.value, encryptor, events[|events| - 1])
  }

  lemma {:induction false} ApplyAllSplits(t: Tables, encryptor: bool, a: seq<LedgerEvent>, b: seq<LedgerEvent>)
    ensures ApplyAll(t, encryptor, a + b) ==
      var first := ApplyAll(t, encryptor, a);
      if first.Err? then first else ApplyAll(first.value, encryptor, b)
  {
    if b == [] {
      assert a + b == a;
    } else {
      var last := |b| - 1;
      ApplyAllSplits(t, encryptor, a, b[..last]);
      assert (a + b)[..|a + b| - 1] == a + b[..last];
    }
  }

  /** The next event either extends the fold or decides the whole list's error. */
  lemma ApplyNext(start: Tables, t: Tables, encryptor: bool, events: seq<LedgerEvent>, i: nat)
    requires i < |events| && ApplyAll(start, encryptor, events[..i]) == Ok(t)
    ensures ApplyAll(start, encryptor, events[..i + 1]) == Apply(t, encryptor, events[i])
    ensures Apply(t, encryptor, events[i]).Err? ==> ApplyAll(start, encryptor, events) == Apply(t, encryptor, events[i])
  {
    assert events[..i + 1][..i] == events[..i];
    assert events == events[..i + 1] + events[i + 1..];
    ApplyAllSplits(start, encryptor, events[..i + 1], events[i + 1..]);
  }

  lemma {:induction false} ApplyAllAbsorbs(t: Tables, encryptor: bool, events: seq<LedgerEvent>)
    requires ApplyAll(t, encryptor, events).Ok?
    ensures forall e :: e in events ==> Absorbed(ApplyAll(t, encryptor, events).value, e)
  {
    if events != [] {
      var last := |events| - 1;
      var mid := ApplyAll(t, encryptor, events[..last]).value;
      ApplyAllAbsorbs(t, encryptor, events[..last]);
      ApplyAbsorbs(mid, encryptor, events[last]);
      forall e | e in events[..last]
        ensures Absorbed(ApplyAll(t, encryptor, events).value, e)
      {
        AbsorbedStays(mid, ApplyAll(t, encryptor, events).value, e);
      }
    }
  }

  lemma {:induction false} AbsorbedEventsChangeNothing(t: Tables, encryptor: bool, events: seq<LedgerEvent>)
    requires forall e :: e in events ==> Absorbed(t, e)
    ensures ApplyAll(t, encryptor, events) == Ok(t)
  {
    if events != [] {
      AbsorbedEventsChangeNothing(t, encryptor, events[..|events| - 1]);
      assert Absorbed(t, events[|events| - 1]);
    }
  }

  // ---------------------------------------------------------------------------
  // A batch: sort by (ledger, index), then apply.
  // ---------------------------------------------------------------------------

  function Key(e: LedgerEvent): int {
    if e.payload.Dict? && e.payload.index.Position? then e.payload.index.value else 0
  }

  predicate Before(e: LedgerEvent, f: LedgerEvent) {
    e.ledger < f.ledger || (e.ledger == f.ledger && Key(e) <= Key(f))
  }

  function ByKey(): (LedgerEvent, LedgerEvent) -> bool {
    (e, f) => Before(e, f)
  }

  lemma ByKeyIsTotalPreorder()
    ensures TotalPreorder(ByKey())
  {
  }

  predicate Parsable(events: seq<LedgerEvent>) {
    forall e :: e in events && e.payload.Dict? ==> e.payload.index.Position?
  }

  datatype Indexed = Indexed(tables: Tables, commitments: nat, nullifiers: nat)

  /** The counts a finished fold returns: rows added to each table. */
  function Tally(t: Tables, r: Result<Tables, IndexError>): Result<Indexed, IndexError>
    requires r.Ok? ==> Grows(t, r.value)
  {
    match r
    case Err(e) => Err(e)
    case Ok(t') => Ok(Indexed(t', |t'.commitments| - |t.commitments|, |t'.nullifiers| - |t.nullifiers|))
  }

  function Batch(t: Tables, encryptor: bool, events: seq<LedgerEvent>): (r: Result<Indexed, IndexError>)
    ensures r.Ok? ==> Grows(t, r.value.tables)
  {
    if !Parsable(events) then Err(UnparsableIndex)
    else Tally(t, ApplyAll(t, encryptor, StableSort(events, ByKey())))
  }

  /** The parser writes through a session; a raised error leaves the session to be
      rolled back by its owner. */
  class Session {
    var tables: Tables

    constructor (tables: Tables)
      ensures this.tables == tables
    {
      this.tables := tables;
    }

    method NextLeafIndex() returns (index: int)
      ensures index == MaxLeaf(tables.commitments) + 1
    {
      var max := -1;
      var rows := tables.commitments;
      for i := 0 to |rows|
        invariant max == MaxLeaf(rows[..i])
      {
        assert rows[..i + 1][..i] == rows[..i];
        max := if max > rows[i].leafIndex then max else rows[i].leafIndex;
      }
      assert rows[..|rows|] == rows;
      return max + 1;
    }

    /** One deposit: true when a row was added. */
    method IndexDeposit(encryptor: bool, e: LedgerEvent, leaf: int) returns (r: Result<bool, IndexError>)
      requires e.payload.Dict? && e.eventType.NoteDeposited? && leaf == MaxLeaf(tables.commitments) + 1
      modifies this
      ensures Apply(old(tables), encryptor, e) == if r.Ok? then Ok(tables) else Err(r.error)
      ensures r.Ok? ==> tables.nullifiers == old(tables).nullifiers && MaxLeaf(tables.commitments) + 1 == leaf + (if r.value then 1 else 0)
      ensures r.Ok? ==> |tables.commitments| == |old(tables).commitments| + (if r.value then 1 else 0)
    {
      if !ValidHex64(e.payload.commitment) {
        return Ok(false);
      }
      if HasEvent(tables, e.eventHash) {
        return Ok(false);
      }
      if HasCommitment(tables, e.payload.commitment.value) {
        return Ok(false);
      }
      if e.payload.hasPrivate && !encryptor {
        return Err(NoEncryptor);
      }
      var row := CommitmentRow(e.payload.commitment.value, leaf, e.ledger, e.txHash, e.eventHash, e.payload.hasPrivate);
      assert (tables.commitments + [row])[..|tables.commitments|] == tables.commitments;
      tables := tables.(commitments := tables.commitments + [row]);
      return Ok(true);
    }

    /** One spend: true when a row was added. */
    method IndexSpend(encryptor: bool, e: LedgerEvent) returns (r: Result<bool, IndexError>)
      requires e.payload.Dict? && e.eventType.NullifierSpent?
      modifies this
      ensures Apply(old(tables), encryptor, e) == if r.Ok? then Ok(tables) else Err(r.error)
      ensures r.Ok? ==> tables.commitments == old(tables).commitments
      ensures r.Ok? ==> |tables.nullifiers| == |old(tables).nullifiers| + (if r.value then 1 else 0)
    {
      if !ValidHex64(e.payload.nullifier) {
        return Ok(false);
      }
      if HasNullifier(tables, e.payload.nullifier.value) {
        return Ok(false);
      }
      if e.payload.hasPrivate && !encryptor {
        return Err(NoEncryptor);
      }
      if HasSpendEvent(tables, e.eventHash) {
        return Err(DuplicateSpendEvent);
      }
      var row := NullifierRow(e.payload.nullifier.value, e.ledger, e.txHash, e.eventHash, e.payload.hasPrivate);
      tables := tables.(nullifiers := tables.nullifiers + [row]);
      return Ok(true);
    }

    /** One event of any type: how many rows it added to each table. */
    method IndexEvent(encryptor: bool, e: LedgerEvent, leaf: int) returns (r: Result<(nat, nat), IndexError>)
      requires leaf == MaxLeaf(tables.commitments) + 1
      modifies this
      ensures Apply(old(tables), encryptor, e) == if r.Ok? then Ok(tables) else Err(r.error)
      ensures r.Ok? ==> MaxLeaf(tables.commitments) + 1 == leaf + r.value.0
      ensures r.Ok? ==> |tables.commitments| == |old(tables).commitments| + r.value.0
      ensures r.Ok? ==> |tables.nullifiers| == |old(tables).nullifiers| + r.value.1
    {
      if e.payload.NotADict? {
        return Ok((0, 0));
      }
      match e.eventType {
        case NoteDeposited =>
          var added := IndexDeposit(encryptor, e, leaf);
          r := if added.Err? then Err(added.error) else Ok((if added.value then 1 else 0, 0));
        case NullifierSpent =>
          var added := IndexSpend(encryptor, e);
          r := if added.Err? then Err(added.error) else Ok((0, if added.value then 1 else 0));
        case OtherType =>
          r := Ok((0, 0));
      }
    }

    /** The event at one position of a sorted batch, after those before it. */
    method IndexNext(ghost start: Tables, encryptor: bool, sorted: seq<LedgerEvent>, i: nat, leaf: int)
      returns (r: Result<(nat, nat), IndexError>)
      requires i < |sorted| && ApplyAll(start, encryptor, sorted[..i]) == Ok(tables) && leaf == MaxLeaf(tables.commitments) + 1
      modifies this
      ensures r.Ok? ==> ApplyAll(start, encryptor, sorted[..i + 1]) == Ok(tables)
      ensures r.Ok? ==> MaxLeaf(tables.commitments) + 1 == leaf + r.value.0
      ensures r.Ok? ==> |tables.commitments| == |old(tables).commitments| + r.value.0
      ensures r.Ok? ==> |tables.nullifiers| == |old(tables).nullifiers| + r.value.1
      ensures r.Err? ==> ApplyAll(start, encryptor, sorted) == Err(r.error)
    {
      ApplyNext(start, tables, encryptor, sorted, i);
      r := IndexEvent(encryptor, sorted[i], leaf);
    }

    /** The loop over a sorted batch. */
    method IndexInOrder(encryptor: bool, sorted: seq<LedgerEvent>) returns (r: Result<(nat, nat), IndexError>)
      modifies this
      ensures ApplyAll(old(tables), encryptor, sorted) == if r.Ok? then Ok(tables) else Err(r.error)
      ensures r.Ok? ==> |tables.commitments| == |old(tables).commitments| + r.value.0
      ensures r.Ok? ==> |tables.nullifiers| == |old(tables).nullifiers| + r.value.1
    {
      ghost var start := tables;
      var commitments: nat, nullifiers: nat := 0, 0;
      var leaf := NextLeafIndex();
      for i := 0 to |sorted|
        invariant ApplyAll(start, encryptor, sorted[..i]) == Ok(tables)
        invariant leaf == MaxLeaf(tables.commitments) + 1
        invariant |tables.commitments| == |start.commitments| + commitments
        invariant |tables.nullifiers| == |start.nullifiers| + nullifiers
      {
        var added := IndexNext(start, encryptor, sorted, i, leaf);
        if added.Err? {
          return Err(added.error);
        }
        var (deposit, spend) := added.value;
        leaf, commitments, nullifiers := leaf + deposit, commitments + deposit, nullifiers + spend;
      }
      assert sorted[..|sorted|] == sorted;
      return Ok((commitments, nullifiers));
    }

    method ParseBatch(encryptor: bool, events: seq<LedgerEvent>) returns (r: Result<(nat, nat), IndexError>)
      modifies this
      ensures match Batch(old(tables), encryptor, events)
        case Ok(b) => tables == b.tables && r == Ok((b.commitments, b.nullifiers))
        case Err(e) => r == Err(e)
    {
      if events == [] {
        return Ok((0, 0));
      }
      if !Parsable(events) {
        return Err(UnparsableIndex);
      }
      r := IndexInOrder(encryptor, StableSort(events, ByKey()));
    }
  }

  // ---------------------------------------------------------------------------
  // Batches compose, forget arrival order and replay to nothing.
  // ---------------------------------------------------------------------------

  lemma ParsableConcat(a: seq<LedgerEvent>, b: seq<LedgerEvent>)
    ensures Parsable(a + b) <==> Parsable(a) && Parsable(b)
  {
    assert forall e :: e in a + b <==> e in a || e in b;
  }

  /** Two batches' outcome as one: the last tables and the summed counts. */
  function Plus(first: Indexed, second: Result<Indexed, IndexError>): Result<Indexed, IndexError> {
    match second
    case Err(e) => Err(e)
    case Ok(s) => Ok(Indexed(s.tables, first.commitments + s.commitments, first.nullifiers + s.nullifiers))
  }

  lemma TallyAdds(t: Tables, mid: Tables, r: Result<Tables, IndexError>)
    requires Grows(t, mid) && (r.Ok? ==> Grows(mid, r.value))
    ensures r.Ok? ==> Grows(t, r.value)
    ensures Tally(t, r) == Plus(Tally(t, Ok(mid)).value, Tally(mid, r))
  {
  }

  /** Indexing A and then B is indexing A + B, errors included, whenever every key
      of A is at most every key of B. */
  lemma BatchesCompose(t: Tables, encryptor: bool, a: seq<LedgerEvent>, b: seq<LedgerEvent>)
    requires forall e, f :: e in a && f in b ==> Before(e, f)
    ensures !Parsable(a) || !Parsable(b) ==> Batch(t, encryptor, a + b) == Err(UnparsableIndex)
    ensures Parsable(b) && Batch(t, encryptor, a).Err? ==> Batch(t, encryptor, a + b) == Batch(t, encryptor, a)
    ensures Parsable(b) && Batch(t, encryptor, a).Ok? ==>
      var first := Batch(t, encryptor, a).value;
      Batch(t, encryptor, a + b) == Plus(first, Batch(first.tables, encryptor, b))
  {
    ParsableConcat(a, b);
    if Parsable(a + b) {
      var sa, sb := StableSort(a, ByKey()), StableSort(b, ByKey());
      SortSplits(a, b, ByKey());
      ApplyAllSplits(t, encryptor, sa, sb);
      if ApplyAll(t, encryptor, sa).Ok? {
        var mid := ApplyAll(t, encryptor, sa).value;
        TallyAdds(t, mid, ApplyAll(mid, encryptor, sb));
      }
    }
  }

  /** When events with equal keys are equal, the order of arrival does not matter. */
  lemma ArrivalOrderIsIrrelevant(t: Tables, encryptor: bool, a: seq<LedgerEvent>, b: seq<LedgerEvent>)
    requires multiset(a) == multiset(b)
    requires forall e, f :: e in a && f in a && e.ledger == f.ledger && Key(e) == Key(f) ==> e == f
    ensures Batch(t, encryptor, a) == Batch(t, encryptor, b)
  {
    ByKeyIsTotalPreorder();
    SortForgetsOrder(a, b, ByKey());
    forall e: LedgerEvent
      ensures e in a <==> e in b
    {
      assert e in a <==> e in multiset(a);
      assert e in b <==> e in multiset(b);
    }
  }

  /** Every event of a finished batch is accounted for. */
  lemma BatchAbsorbs(t: Tables, encryptor: bool, events: seq<LedgerEvent>)
    requires Batch(t, encryptor, events).Ok?
    ensures forall e :: e in events ==> Absorbed(Batch(t, encryptor, events).value.tables, e)
  {
    ApplyAllAbsorbs(t, encryptor, StableSort(events, ByKey()));
    SortKeepsMembers(events, ByKey());
  }

  lemma AbsorbedBatch(t: Tables, encryptor: bool, events: seq<LedgerEvent>)
    requires Parsable(events) && forall e :: e in events ==> Absorbed(t, e)
    ensures Batch(t, encryptor, events) == Ok(Indexed(t, 0, 0))
  {
    SortKeepsMembers(events, ByKey());
    AbsorbedEventsChangeNothing(t, encryptor, StableSort(events, ByKey()));
  }

  /** Any selection of already processed events, in any order and at any later
      state of the tables, returns (0, 0) and changes nothing. */
  lemma ReplayIsANoOp(t: Tables, encryptor: bool, events: seq<LedgerEvent>, later: Tables, encryptor': bool, again: seq<LedgerEvent>)
    requires Batch(t, encryptor, events).Ok?
    requires Batch(t, encryptor, events).value.tables.commitments <= later.commitments
    requires Batch(t, encryptor, events).value.tables.nullifiers <= later.nullifiers
    requires forall e :: e in again ==> e in events
    ensures Batch(later, encryptor', again) == Ok(Indexed(later, 0, 0))
  {
    BatchAbsorbs(t, encryptor, events);
    forall e | e in again
      ensures Absorbed(later, e)
    {
      AbsorbedStays(Batch(t, encryptor, events).value.tables, later, e);
    }
    AbsorbedBatch(later, encryptor', again);
  }

  // ---------------------------------------------------------------------------
  // What every batch keeps.
  // ---------------------------------------------------------------------------

  /** A valid deposit of which the tables hold neither the event nor the commitment. */
  predicate IsNew(t: Tables, e: LedgerEvent) {
    && e.eventType.NoteDeposited? && e.payload.Dict? && ValidHex64(e.payload.commitment)
    && !HasEvent(t, e.eventHash) && !HasCommitment(t, e.payload.commitment.value)
  }

  /** Leaf indices are 0..n-1 in insertion order; commitments, nullifiers and event
      hashes are pairwise distinct; everything stored is well-formed. */
  ghost predicate WellFormed(t: Tables) {
    && (forall i :: 0 <= i < |t.commitments| ==> t.commitments[i].leafIndex == i && Hex.IsHex64(t.commitments[i].commitment))
    && (forall i, j :: 0 <= i < j < |t.commitments| ==>
          t.commitments[i].commitment != t.commitments[j].commitment && t.commitments[i].eventHash != t.commitments[j].eventHash)
    && (forall i :: 0 <= i < |t.nullifiers| ==> Hex.IsHex64(t.nullifiers[i].nullifier))
    && (forall i, j :: 0 <= i < j < |t.nullifiers| ==>
          t.nullifiers[i].nullifier != t.nullifiers[j].nullifier && t.nullifiers[i].eventHash != t.nullifiers[j].eventHash)
  }

  lemma {:induction false} MaxLeafOfContiguous(rows: seq<CommitmentRow>)
    requires forall i :: 0 <= i < |rows| ==> rows[i].leafIndex == i
    ensures MaxLeaf(rows) == |rows| - 1
  {
    if rows != [] {
      MaxLeafOfContiguous(rows[..|rows| - 1]);
    }
  }

  lemma DepositKeepsWellFormed(t: Tables, e: LedgerEvent)
    requires WellFormed(t) && IsNew(t, e)
    ensures WellFormed(t.(commitments := t.commitments + [NewCommitment(t, e)]))
  {
    MaxLeafOfContiguous(t.commitments);
  }

  lemma SpendKeepsWellFormed(t: Tables, e: LedgerEvent)
    requires WellFormed(t) && e.payload.Dict? && ValidHex64(e.payload.nullifier)
    requires !HasNullifier(t, e.payload.nullifier.value) && !HasSpendEvent(t, e.eventHash)
    ensures WellFormed(t.(nullifiers := t.nullifiers + [NewNullifier(e)]))
  {
  }

  lemma ApplyKeepsWellFormed(t: Tables, encryptor: bool, e: LedgerEvent)
    requires WellFormed(t) && Apply(t, encryptor, e).Ok?
    ensures WellFormed(Apply(t, encryptor, e).value)
  {
    var t' := Apply(t, encryptor, e).value;
    if t'.commitments != t.commitments {
      DepositKeepsWellFormed(t, e);
    } else if t'.nullifiers != t.nullifiers {
      SpendKeepsWellFormed(t, e);
    }
  }

  lemma {:induction false} ApplyAllKeepsWellFormed(t: Tables, encryptor: bool, events: seq<LedgerEvent>)
    requires WellFormed(t) && ApplyAll(t, encryptor, events).Ok?
    ensures WellFormed(ApplyAll(t, encryptor, events).value)
  {
    if events != [] {
      var last := |events| - 1;
      ApplyAllKeepsWellFormed(t, encryptor, events[..last]);
      ApplyKeepsWellFormed(ApplyAll(t, encryptor, events[..last]).value, encryptor, events[last]);
    }
  }

  /** The tables after a run of batches, each committed whole or not at all. */
  function AfterBatches(t: Tables, encryptor: bool, batches: seq<seq<LedgerEvent>>): Tables {
    if batches == [] then t
    else
      var before := AfterBatches(t, encryptor, batches[..|batches| - 1]);
      match Batch(before, encryptor, batches[|batches| - 1])
      case Ok(b) => b.tables
      case Err(_) => before
  }

  lemma {:induction false} BatchesKeepWellFormed(t: Tables, encryptor: bool, batches: seq<seq<LedgerEvent>>)
    requires WellFormed(t)
    ensures WellFormed(AfterBatches(t, encryptor, batches))
  {
    if batches != [] {
      var last := |batches| - 1;
      BatchesKeepWellFormed(t, encryptor, batches[..last]);
      var before := AfterBatches(t, encryptor, batches[..last]);
      if Batch(before, encryptor, batches[last]).Ok? {
        ApplyAllKeepsWellFormed(before, encryptor, StableSort(batches[last], ByKey()));
      }
    }
  }

  // ---------------------------------------------------------------------------
  // Where rows come from, and in which order.
  // ---------------------------------------------------------------------------

  ghost predicate RowFrom(row: CommitmentRow, e: LedgerEvent) {
    && e.eventType.NoteDeposited? && e.payload.Dict? && e.payload.commitment == Text(row.commitment)
    && row.ledger == e.ledger && row.txHash == e.txHash && row.eventHash == e.eventHash && row.sealed == e.payload.hasPrivate
  }

  lemma NewToMoreIsNew(t: Tables, t': Tables, e: LedgerEvent)
    requires t.commitments <= t'.commitments && IsNew(t', e)
    ensures IsNew(t, e)
  {
    assert forall i :: 0 <= i < |t.commitments| ==> t'.commitments[i] == t.commitments[i];
  }

  /** The added rows copy, in order, the events at ascending positions of a list; each
      of them was new to the tables, and no event before the first of them was. */
  ghost predicate RowsCopy(t: Tables, rows: seq<CommitmentRow>, events: seq<LedgerEvent>, at: seq<nat>) {
    && |rows| == |t.commitments| + |at|
    && (forall i :: 0 <= i < |at| ==> at[i] < |events| && IsNew(t, events[at[i]]) && RowFrom(rows[|t.commitments| + i], events[at[i]]))
    && (forall i, j :: 0 <= i < j < |at| ==> at[i] < at[j])
    && (forall k :: 0 <= k < |events| && IsNew(t, events[k]) ==> at != [] && at[0] <= k)
  }

  lemma RowsCopySame(t: Tables, rows: seq<CommitmentRow>, events: seq<LedgerEvent>, at: seq<nat>)
    requires events != [] && RowsCopy(t, rows, events[..|events| - 1], at)
    requires IsNew(t, events[|events| - 1]) ==> at != []
    ensures RowsCopy(t, rows, events, at)
  {
    assert forall k :: 0 <= k < |events| - 1 ==> events[..|events| - 1][k] == events[k];
  }

  lemma RowsCopyMore(t: Tables, rows: seq<CommitmentRow>, row: CommitmentRow, events: seq<LedgerEvent>, at: seq<nat>)
    requires events != [] && RowsCopy(t, rows, events[..|events| - 1], at)
    requires IsNew(t, events[|events| - 1]) && RowFrom(row, events[|events| - 1])
    ensures RowsCopy(t, rows + [row], events, at + [|events| - 1])
  {
    assert forall k :: 0 <= k < |events| - 1 ==> events[..|events| - 1][k] == events[k];
  }

  lemma RowsCopyStep(t: Tables, mid: Tables, encryptor: bool, events: seq<LedgerEvent>, at: seq<nat>) returns (at': seq<nat>)
    requires events != [] && t.commitments <= mid.commitments && RowsCopy(t, mid.commitments, events[..|events| - 1], at)
    requires Apply(mid, encryptor, events[|events| - 1]).Ok?
    ensures RowsCopy(t, Apply(mid, encryptor, events[|events| - 1]).value.commitments, events, at')
  {
    var e := events[|events| - 1];
    if IsNew(mid, e) {
      NewToMoreIsNew(t, mid, e);
      RowsCopyMore(t, mid.commitments, NewCommitment(mid, e), events, at);
      at' := at + [|events| - 1];
    } else {
      assert at == [] ==> mid.commitments == t.commitments;
      RowsCopySame(t, mid.commitments, events, at);
      at' := at;
    }
  }

  /** The rows that a list of events adds copy its new deposits in the list's own
      order, beginning with the first new one. */
  lemma {:induction false} RowsCopyEvents(t: Tables, encryptor: bool, events: seq<LedgerEvent>) returns (at: seq<nat>)
    requires ApplyAll(t, encryptor, events).Ok?
    ensures RowsCopy(t, ApplyAll(t, encryptor, events).value.commitments, events, at)
  {
    if events == [] {
      at := [];
    } else {
      var last := |events| - 1;
      var before := RowsCopyEvents(t, encryptor, events[..last]);
      at := RowsCopyStep(t, ApplyAll(t, encryptor, events[..last]).value, encryptor, events, before);
    }
  }

  /** A finished batch adds a leaf exactly when it brings a deposit that is new to
      the tables it starts from. */
  lemma BatchAddsExactlyWhenNew(t: Tables, encryptor: bool, events: seq<LedgerEvent>)
    requires Batch(t, encryptor, events).Ok?
    ensures Batch(t, encryptor, events).value.commitments > 0 <==> exists e :: e in events && IsNew(t, e)
  {
    var sorted := StableSort(events, ByKey());
    SortKeepsMembers(events, ByKey());
    var at := RowsCopyEvents(t, encryptor, sorted);
    if at != [] {
      assert sorted[at[0]] in events && IsNew(t, sorted[at[0]]);
    } else {
      assert forall e :: e in sorted ==> !IsNew(t, e);
    }
  }

  ghost predicate SpendFromSome(row: NullifierRow, events: seq<LedgerEvent>) {
    exists e :: e in events && SpendFrom(row, e)
  }

  ghost predicate SpendFrom(row: NullifierRow, e: LedgerEvent) {
    && e.eventType.NullifierSpent? && e.payload.Dict? && e.payload.nullifier == Text(row.nullifier)
    && row.ledger == e.ledger && row.txHash == e.txHash && row.eventHash == e.eventHash && row.sealed == e.payload.hasPrivate
  }

  /** Every new nullifier row copies a spend of the list. */
  lemma {:induction false} SpendsComeFromEvents(t: Tables, encryptor: bool, events: seq<LedgerEvent>)
    requires ApplyAll(t, encryptor, events).Ok?
    ensures var rows := ApplyAll(t, encryptor, events).value.nullifiers;
      forall i :: |t.nullifiers| <= i < |rows| ==> SpendFromSome(rows[i], events)
  {
    if events != [] {
      var last := |events| - 1;
      SpendsComeFromEvents(t, encryptor, events[..last]);
      var mid := ApplyAll(t, encryptor, events[..last]).value.nullifiers;
      var rows := ApplyAll(t, encryptor, events).value.nullifiers;
      forall i | |t.nullifiers| <= i < |rows|
        ensures SpendFromSome(rows[i], events)
      {
        if i < |mid| {
          assert SpendFromSome(mid[i], events[..last]);
          var e :| e in events[..last] && SpendFrom(mid[i], e);
          assert e in events && SpendFrom(rows[i], e);
        } else {
          assert events[last] in events && SpendFrom(rows[i], events[last]);
        }
      }
    }
  }

  // ---------------------------------------------------------------------------
  // Leaf order.
  // ---------------------------------------------------------------------------

  ghost predicate InLedgerOrder(rows: seq<CommitmentRow>) {
    forall i, j :: 0 <= i < j < |rows| ==> rows[i].ledger <= rows[j].ledger
  }

  /** No deposit that is new to the tables lies in a ledger before a stored one. */
  ghost predicate NoneTooLate(t: Tables, events: seq<LedgerEvent>) {
    forall i, e :: 0 <= i < |t.commitments| && e in events && IsNew(t, e) ==> t.commitments[i].ledger <= e.ledger
  }

  lemma OrderedOnlyIfNoneTooLate(t: Tables, rows: seq<CommitmentRow>, events: seq<LedgerEvent>, at: seq<nat>)
    requires t.commitments <= rows && RowsCopy(t, rows, events, at) && Sorted(events, ByKey()) && InLedgerOrder(rows)
    ensures NoneTooLate(t, events)
  {
    forall i, e | 0 <= i < |t.commitments| && e in events && IsNew(t, e)
      ensures t.commitments[i].ledger <= e.ledger
    {
      var k :| 0 <= k < |events| && events[k] == e;
      assert rows[i] == t.commitments[i] && rows[i].ledger <= rows[|t.commitments|].ledger;
      assert at[0] < k ==> ByKey()(events[at[0]], events[k]);
    }
  }

  lemma OrderedIfNoneTooLate(t: Tables, rows: seq<CommitmentRow>, events: seq<LedgerEvent>, at: seq<nat>)
    requires t.commitments <= rows && RowsCopy(t, rows, events, at) && Sorted(events, ByKey())
    requires InLedgerOrder(t.commitments) && NoneTooLate(t, events)
    ensures InLedgerOrder(rows)
  {
    var n := |t.commitments|;
    forall i, j | 0 <= i < j < |rows|
      ensures rows[i].ledger <= rows[j].ledger
    {
      if j < n {
        assert rows[i] == t.commitments[i] && rows[j] == t.commitments[j];
      } else if i < n {
        assert rows[i] == t.commitments[i] && events[at[j - n]] in events;
      } else {
        assert ByKey()(events[at[i - n]], events[at[j - n]]);
      }
    }
  }

  /** Exactly when a list of sorted events leaves the leaves in ledger order. */
  lemma LeavesFollowLedgers(t: Tables, encryptor: bool, events: seq<LedgerEvent>)
    requires ApplyAll(t, encryptor, events).Ok? && Sorted(events, ByKey())
    ensures InLedgerOrder(ApplyAll(t, encryptor, events).value.commitments)
      <==> InLedgerOrder(t.commitments) && NoneTooLate(t, events)
  {
    var rows := ApplyAll(t, encryptor, events).value.commitments;
    var at := RowsCopyEvents(t, encryptor, events);
    if InLedgerOrder(rows) {
      OrderedOnlyIfNoneTooLate(t, rows, events, at);
      assert forall i :: 0 <= i < |t.commitments| ==> rows[i] == t.commitments[i];
    } else if InLedgerOrder(t.commitments) && NoneTooLate(t, events) {
      OrderedIfNoneTooLate(t, rows, events, at);
    }
  }

  /** The events that rows were copied from, in leaf order. */
  ghost predicate Sources(rows: seq<CommitmentRow>, sources: seq<LedgerEvent>) {
    |sources| == |rows| && forall i :: 0 <= i < |rows| ==> RowFrom(rows[i], sources[i])
  }

  /** Strictly ascending (ledger, position). */
  ghost predicate Ascending(events: seq<LedgerEvent>) {
    forall i, j :: 0 <= i < j < |events| ==> Precedes(events[i], events[j])
  }

  predicate Precedes(e: LedgerEvent, f: LedgerEvent) {
    Before(e, f) && !Before(f, e)
  }

  /** Every deposit that is new to the tables comes after every stored one. */
  ghost predicate NewComesLast(t: Tables, sources: seq<LedgerEvent>, events: seq<LedgerEvent>) {
    forall i, e :: 0 <= i < |sources| && e in events && IsNew(t, e) ==> Precedes(sources[i], e)
  }

  /** No two new deposits share their (ledger, position). */
  ghost predicate NewAreApart(t: Tables, events: seq<LedgerEvent>) {
    forall e, f :: e in events && f in events && IsNew(t, e) && IsNew(t, f) && Before(e, f) && Before(f, e) ==> e == f
  }

  ghost function Picked(events: seq<LedgerEvent>, at: seq<nat>): (r: seq<LedgerEvent>)
    requires forall i :: 0 <= i < |at| ==> at[i] < |events|
    ensures |r| == |at|
  {
    seq(|at|, i requires 0 <= i < |at| => events[at[i]])
  }

  lemma AscendingOnlyIfLast(t: Tables, sources: seq<LedgerEvent>, rows: seq<CommitmentRow>, events: seq<LedgerEvent>, at: seq<nat>)
    requires RowsCopy(t, rows, events, at) && Sorted(events, ByKey()) && Ascending(sources + Picked(events, at))
    ensures NewComesLast(t, sources, events)
  {
    var all := sources + Picked(events, at);
    forall i, e | 0 <= i < |sources| && e in events && IsNew(t, e)
      ensures Precedes(sources[i], e)
    {
      var k :| 0 <= k < |events| && events[k] == e;
      assert Precedes(all[i], all[|sources|]);
      assert at[0] < k ==> ByKey()(events[at[0]], events[k]);
    }
  }

  lemma AscendingIfLast(t: Tables, sources: seq<LedgerEvent>, rows: seq<CommitmentRow>, events: seq<LedgerEvent>, at: seq<nat>)
    requires RowsCopy(t, rows, events, at) && Sorted(events, ByKey()) && Ascending(sources)
    requires NewComesLast(t, sources, events) && NewAreApart(t, events)
    requires forall i, j :: 0 <= i < j < |at| ==> events[at[i]] != events[at[j]]
    ensures Ascending(sources + Picked(events, at))
  {
    var all, n := sources + Picked(events, at), |sources|;
    forall i, j | 0 <= i < j < |all|
      ensures Precedes(all[i], all[j])
    {
      if j < n {
        assert all[i] == sources[i] && all[j] == sources[j];
      } else if i < n {
        assert all[i] == sources[i] && all[j] == events[at[j - n]];
      } else {
        assert ByKey()(events[at[i - n]], events[at[j - n]]);
      }
    }
  }

  lemma AscendingPrefix(a: seq<LedgerEvent>, b: seq<LedgerEvent>)
    requires Ascending(a + b)
    ensures Ascending(a)
  {
    assert forall i :: 0 <= i < |a| ==> (a + b)[i] == a[i];
  }

  lemma PicksAreSources(t: Tables, sources: seq<LedgerEvent>, rows: seq<CommitmentRow>, events: seq<LedgerEvent>, at: seq<nat>)
    requires t.commitments <= rows && RowsCopy(t, rows, events, at) && Sources(t.commitments, sources)
    ensures Sources(rows, sources + Picked(events, at))
    ensures forall e :: e in Picked(events, at) ==> e in events && IsNew(t, e)
  {
    var all, n := sources + Picked(events, at), |sources|;
    forall i | 0 <= i < |rows|
      ensures RowFrom(rows[i], all[i])
    {
      if i < n {
        assert rows[i] == t.commitments[i];
      } else {
        assert all[i] == events[at[i - n]];
      }
    }
  }

  lemma PicksDiffer(t: Tables, t': Tables, events: seq<LedgerEvent>, at: seq<nat>)
    requires WellFormed(t') && RowsCopy(t, t'.commitments, events, at)
    ensures forall i, j :: 0 <= i < j < |at| ==> events[at[i]] != events[at[j]]
  {
    var n := |t.commitments|;
    forall i, j | 0 <= i < j < |at|
      ensures events[at[i]] != events[at[j]]
    {
      assert t'.commitments[n + i].eventHash != t'.commitments[n + j].eventHash;
    }
  }

  predicate Confused(e: LedgerEvent, f: LedgerEvent)
    requires e.payload.Dict? && f.payload.Dict?
  {
    e.eventHash == f.eventHash || e.payload.commitment == f.payload.commitment
  }

  /** Different new deposits differ in event hash and in commitment. */
  ghost predicate NewAreIdentified(t: Tables, events: seq<LedgerEvent>) {
    forall e, f :: e in events && f in events && IsNew(t, e) && IsNew(t, f) && Confused(e, f) ==> e == f
  }

  lemma NewIsPicked(t: Tables, t': Tables, events: seq<LedgerEvent>, at: seq<nat>, e: LedgerEvent) returns (i: nat)
    requires t.commitments <= t'.commitments && RowsCopy(t, t'.commitments, events, at) && NewAreIdentified(t, events)
    requires e in events && IsNew(t, e) && Absorbed(t', e)
    ensures i < |at| && events[at[i]] == e
  {
    var n := |t.commitments|;
    var k :| 0 <= k < |t'.commitments| &&
      (t'.commitments[k].eventHash == e.eventHash || t'.commitments[k].commitment == e.payload.commitment.value);
    assert forall m :: 0 <= m < n ==> t'.commitments[m] == t.commitments[m];
    i := k - n;
    assert events[at[i]] in events && IsNew(t, events[at[i]]);
  }

  lemma AscendingPair(events: seq<LedgerEvent>, i: nat, j: nat)
    requires Ascending(events) && i < |events| && j < |events|
    ensures i == j || Precedes(events[i], events[j]) || Precedes(events[j], events[i])
  {
  }

  lemma TiedPicksAreEqual(sources: seq<LedgerEvent>, events: seq<LedgerEvent>, at: seq<nat>, i: nat, j: nat)
    requires (forall k :: 0 <= k < |at| ==> at[k] < |events|) && i < |at| && j < |at|
    requires Ascending(sources + Picked(events, at))
    requires Before(events[at[i]], events[at[j]]) && Before(events[at[j]], events[at[i]])
    ensures events[at[i]] == events[at[j]]
  {
    var all, n := sources + Picked(events, at), |sources|;
    assert all[n + i] == events[at[i]] && all[n + j] == events[at[j]];
    AscendingPair(all, n + i, n + j);
  }

  lemma AscendingOnlyIfApart(t: Tables, t': Tables, sources: seq<LedgerEvent>, events: seq<LedgerEvent>, at: seq<nat>)
    requires t.commitments <= t'.commitments && RowsCopy(t, t'.commitments, events, at) && NewAreIdentified(t, events)
    requires (forall e :: e in events ==> Absorbed(t', e)) && Ascending(sources + Picked(events, at))
    ensures NewAreApart(t, events)
  {
    forall e, f | e in events && f in events && IsNew(t, e) && IsNew(t, f) && Before(e, f) && Before(f, e)
      ensures e == f
    {
      var i := NewIsPicked(t, t', events, at, e);
      var j := NewIsPicked(t, t', events, at, f);
      TiedPicksAreEqual(sources, events, at, i, j);
    }
  }

  /** Whatever events the stored rows were copied from, the added rows are copied
      from events of the list, and leaf order is then strictly ascending in (ledger,
      position) exactly when it was so before, every new deposit comes after the
      stored ones, and no two new deposits share a position.  These conditions always
      suffice; the last one is necessary when different new deposits differ in hash
      and commitment, so that none is dropped as a duplicate of another. */
  lemma LeavesFollowPositions(t: Tables, encryptor: bool, events: seq<LedgerEvent>, sources: seq<LedgerEvent>)
    returns (added: seq<LedgerEvent>)
    requires WellFormed(t) && ApplyAll(t, encryptor, events).Ok? && Sorted(events, ByKey())
    requires Sources(t.commitments, sources)
    ensures Sources(ApplyAll(t, encryptor, events).value.commitments, sources + added)
    ensures forall e :: e in added ==> e in events && IsNew(t, e)
    ensures Ascending(sources + added) ==> Ascending(sources) && NewComesLast(t, sources, events)
    ensures Ascending(sources) && NewComesLast(t, sources, events) && NewAreApart(t, events) ==> Ascending(sources + added)
    ensures Ascending(sources + added) && NewAreIdentified(t, events) ==> NewAreApart(t, events)
  {
    var t' := ApplyAll(t, encryptor, events).value;
    var at := RowsCopyEvents(t, encryptor, events);
    added := Picked(events, at);
    ApplyAllKeepsWellFormed(t, encryptor, events);
    PicksAreSources(t, sources, t'.commitments, events, at);
    PicksDiffer(t, t', events, at);
    if Ascending(sources + added) {
      AscendingPrefix(sources, added);
      AscendingOnlyIfLast(t, sources, t'.commitments, events, at);
      if NewAreIdentified(t, events) {
        ApplyAllAbsorbs(t, encryptor, events);
        AscendingOnlyIfApart(t, t', sources, events, at);
      }
    } else if Ascending(sources) && NewComesLast(t, sources, events) && NewAreApart(t, events) {
      AscendingIfLast(t, sources, t'.commitments, events, at);
    }
  }
}
