/** What a batch of shielded-note events comes to, read off the tables before it and
    the events themselves: which events are indexed, when the batch fails, and with
    which error (app/services/note_parser.py). */
module NoteOutcomes {
  import opened Results
  import opened Sorting
  import opened Merkle
  import opened NoteParser
  import Hex

  // ---------------------------------------------------------------------------
  // Events against stored rows.
  // ---------------------------------------------------------------------------

  /** 64 lower-case hexadecimal characters. */
  predicate IsHexText(field: Field) {
    && field.Text? && |field.value| == 64
    && forall i :: 0 <= i < 64 ==> '0' <= field.value[i] <= '9' || 'a' <= field.value[i] <= 'f'
  }

  predicate IsDeposit(e: LedgerEvent) {
    e.eventType == NoteDeposited && e.payload.Dict? && IsHexText(e.payload.commitment)
  }

  predicate IsSpend(e: LedgerEvent) {
    e.eventType == NullifierSpent && e.payload.Dict? && IsHexText(e.payload.nullifier)
  }

  predicate DepositStored(t: Tables, e: LedgerEvent)
    requires IsDeposit(e)
  {
    exists i :: 0 <= i < |t.commitments|
      && (t.commitments[i].eventHash == e.eventHash || t.commitments[i].commitment == e.payload.commitment.value)
  }

  predicate SpendStored(t: Tables, e: LedgerEvent)
    requires IsSpend(e)
  {
    exists i :: 0 <= i < |t.nullifiers| && t.nullifiers[i].nullifier == e.payload.nullifier.value
  }

  predicate SpendHashStored(t: Tables, eventHash: string) {
    exists i :: 0 <= i < |t.nullifiers| && t.nullifiers[i].eventHash == eventHash
  }

  /** A well-formed deposit or spend that no stored row represents. */
  predicate Fresh(t: Tables, e: LedgerEvent) {
    (IsDeposit(e) && !DepositStored(t, e)) || (IsSpend(e) && !SpendStored(t, e))
  }

  /** Once the first is stored, the second is a duplicate. */
  predicate Repeats(e: LedgerEvent, f: LedgerEvent) {
    || (IsDeposit(e) && IsDeposit(f) && (e.eventHash == f.eventHash || e.payload.commitment == f.payload.commitment))
    || (IsSpend(e) && IsSpend(f) && e.payload.nullifier == f.payload.nullifier)
  }

  predicate Unencryptable(encryptor: bool, e: LedgerEvent) {
    e.payload.Dict? && e.payload.hasPrivate && !encryptor
  }

  lemma FreshIsNotAbsorbed(t: Tables, e: LedgerEvent)
    ensures Fresh(t, e) <==> !Absorbed(t, e)
  {
    if IsDeposit(e) {
      assert ValidHex64(e.payload.commitment);
      assert DepositStored(t, e) <==> HasEvent(t, e.eventHash) || HasCommitment(t, e.payload.commitment.value);
    } else if IsSpend(e) {
      assert ValidHex64(e.payload.nullifier);
    }
  }

  /** What one event does: it is skipped, refused, or stored. */
  lemma ApplyByCases(t: Tables, encryptor: bool, e: LedgerEvent)
    ensures !Fresh(t, e) ==> Apply(t, encryptor, e) == Ok(t)
    ensures Fresh(t, e) && Unencryptable(encryptor, e) ==> Apply(t, encryptor, e) == Err(NoEncryptor)
    ensures Fresh(t, e) && !Unencryptable(encryptor, e) && IsSpend(e) && SpendHashStored(t, e.eventHash)
      ==> Apply(t, encryptor, e) == Err(DuplicateSpendEvent)
    ensures Fresh(t, e) && !Unencryptable(encryptor, e) && IsSpend(e) && !SpendHashStored(t, e.eventHash)
      ==> Apply(t, encryptor, e) == Ok(t.(nullifiers := t.nullifiers + [NewNullifier(e)]))
    ensures Fresh(t, e) && !Unencryptable(encryptor, e) && IsDeposit(e)
      ==> Apply(t, encryptor, e) == Ok(t.(commitments := t.commitments + [NewCommitment(t, e)]))
  {
    FreshIsNotAbsorbed(t, e);
    assert IsDeposit(e) ==> ValidHex64(e.payload.commitment);
    assert IsSpend(e) ==> ValidHex64(e.payload.nullifier);
  }

  // ---------------------------------------------------------------------------
  // Which events of a list are indexed.
  // ---------------------------------------------------------------------------

  /** The event at a position is indexed unless the batch fails before it: it is fresh,
      and repeats no indexed event before it. */
  ghost predicate Kept(t: Tables, events: seq<LedgerEvent>, k: nat)
    requires k < |events|
    decreases k
  {
    Fresh(t, events[k]) && forall j: nat :: j < k && Kept(t, events, j) ==> !Repeats(events[j], events[k])
  }

  ghost predicate KeptSpendHash(t: Tables, events: seq<LedgerEvent>, n: nat, eventHash: string)
    requires n <= |events|
  {
    exists j: nat :: j < n && Kept(t, events, j) && IsSpend(events[j]) && events[j].eventHash == eventHash
  }

  /** An indexed spend whose event hash belongs to another stored or indexed spend. */
  ghost predicate ReusesHash(t: Tables, events: seq<LedgerEvent>, k: nat)
    requires k < |events|
  {
    IsSpend(events[k]) && (SpendHashStored(t, events[k].eventHash) || KeptSpendHash(t, events, k, events[k].eventHash))
  }

  ghost predicate Refused(t: Tables, encryptor: bool, events: seq<LedgerEvent>, k: nat)
    requires k < |events|
  {
    Kept(t, events, k) && (Unencryptable(encryptor, events[k]) || ReusesHash(t, events, k))
  }

  ghost predicate FirstRefused(t: Tables, encryptor: bool, events: seq<LedgerEvent>, k: nat)
    requires k < |events|
  {
    Refused(t, encryptor, events, k) && forall j: nat :: j < k ==> !Refused(t, encryptor, events, j)
  }

  function RefusalError(encryptor: bool, e: LedgerEvent): IndexError {
    if Unencryptable(encryptor, e) then NoEncryptor else DuplicateSpendEvent
  }

  /** The positions of the indexed events of one kind among the first `n`. */
  ghost function KeptOf(t: Tables, events: seq<LedgerEvent>, n: nat, kind: LedgerEvent -> bool): (at: seq<nat>)
    requires n <= |events|
    ensures forall k: nat :: k in at <==> k < n && Kept(t, events, k) && kind(events[k])
    ensures forall i :: 0 <= i < |at| ==> at[i] < n
    ensures forall i, j :: 0 <= i < j < |at| ==> at[i] < at[j]
  {
    if n == 0 then []
    else KeptOf(t, events, n - 1, kind) + (if Kept(t, events, n - 1) && kind(events[n - 1]) then [n - 1] else [])
  }

  ghost function KeptDeposits(t: Tables, events: seq<LedgerEvent>, n: nat): (at: seq<nat>)
    requires n <= |events|
    ensures forall k: nat :: k in at <==> k < n && Kept(t, events, k) && IsDeposit(events[k])
    ensures forall i :: 0 <= i < |at| ==> at[i] < n
    ensures forall i, j :: 0 <= i < j < |at| ==> at[i] < at[j]
  {
    KeptOf(t, events, n, IsDeposit)
  }

  ghost function KeptSpends(t: Tables, events: seq<LedgerEvent>, n: nat): (at: seq<nat>)
    requires n <= |events|
    ensures forall k: nat :: k in at <==> k < n && Kept(t, events, k) && IsSpend(events[k])
    ensures forall i :: 0 <= i < |at| ==> at[i] < n
    ensures forall i, j :: 0 <= i < j < |at| ==> at[i] < at[j]
  {
    KeptOf(t, events, n, IsSpend)
  }

  /** Rows after some others copy the deposits at the given positions, one each. */
  ghost predicate CopyDeposits(before: seq<CommitmentRow>, rows: seq<CommitmentRow>, events: seq<LedgerEvent>, at: seq<nat>) {
    && |rows| == |before| + |at| && before <= rows
    && forall i :: 0 <= i < |at| ==> at[i] < |events| && RowFrom(rows[|before| + i], events[at[i]])
  }

  ghost predicate CopySpends(before: seq<NullifierRow>, rows: seq<NullifierRow>, events: seq<LedgerEvent>, at: seq<nat>) {
    && |rows| == |before| + |at| && before <= rows
    && forall i :: 0 <= i < |at| ==> at[i] < |events| && SpendFrom(rows[|before| + i], events[at[i]])
  }

  /** The rows added so far copy the indexed events, in order and one each. */
  ghost predicate Copies(t: Tables, mid: Tables, events: seq<LedgerEvent>, n: nat)
    requires n <= |events|
  {
    && mid.roots == t.roots
    && CopyDeposits(t.commitments, mid.commitments, events, KeptDeposits(t, events, n))
    && CopySpends(t.nullifiers, mid.nullifiers, events, KeptSpends(t, events, n))
  }

  /** The tables represent what they did at first, and the indexed events. */
  ghost predicate Accounts(t: Tables, mid: Tables, events: seq<LedgerEvent>, n: nat)
    requires n <= |events|
  {
    && (forall f :: Fresh(mid, f) <==> Fresh(t, f) && forall j: nat :: j < n && Kept(t, events, j) ==> !Repeats(events[j], f))
    && (forall h :: SpendHashStored(mid, h) <==> SpendHashStored(t, h) || KeptSpendHash(t, events, n, h))
  }

  lemma DepositIsSeen(mid: Tables, e: LedgerEvent, f: LedgerEvent)
    requires IsDeposit(e)
    ensures var mid' := mid.(commitments := mid.commitments + [NewCommitment(mid, e)]);
      Fresh(mid', f) <==> Fresh(mid, f) && !Repeats(e, f)
  {
    var rows, rows' := mid.commitments, mid.commitments + [NewCommitment(mid, e)];
    assert forall i :: 0 <= i < |rows| ==> rows'[i] == rows[i];
    assert rows'[|rows|] == NewCommitment(mid, e);
  }

  lemma SpendIsSeen(mid: Tables, e: LedgerEvent, f: LedgerEvent)
    requires IsSpend(e)
    ensures var mid' := mid.(nullifiers := mid.nullifiers + [NewNullifier(e)]);
      Fresh(mid', f) <==> Fresh(mid, f) && !Repeats(e, f)
  {
    var rows, rows' := mid.nullifiers, mid.nullifiers + [NewNullifier(e)];
    assert forall i :: 0 <= i < |rows| ==> rows'[i] == rows[i];
    assert rows'[|rows|] == NewNullifier(e);
  }

  lemma SpendHashIsSeen(mid: Tables, e: LedgerEvent, h: string)
    requires IsSpend(e)
    ensures SpendHashStored(mid.(nullifiers := mid.nullifiers + [NewNullifier(e)]), h) <==> SpendHashStored(mid, h) || e.eventHash == h
  {
    var rows, rows' := mid.nullifiers, mid.nullifiers + [NewNullifier(e)];
    assert forall i :: 0 <= i < |rows| ==> rows'[i] == rows[i];
    assert rows'[|rows|] == NewNullifier(e);
  }

  /** The tables after an indexed event that was not refused. */
  function Stored(mid: Tables, e: LedgerEvent): Tables
    requires IsDeposit(e) || IsSpend(e)
  {
    if IsDeposit(e) then mid.(commitments := mid.commitments + [NewCommitment(mid, e)])
    else mid.(nullifiers := mid.nullifiers + [NewNullifier(e)])
  }

  lemma StoredIsSeen(mid: Tables, e: LedgerEvent, f: LedgerEvent)
    requires IsDeposit(e) || IsSpend(e)
    ensures Fresh(Stored(mid, e), f) <==> Fresh(mid, f) && !Repeats(e, f)
  {
    if IsDeposit(e) {
      DepositIsSeen(mid, e, f);
    } else {
      SpendIsSeen(mid, e, f);
    }
  }

  lemma StoredHashIsSeen(mid: Tables, e: LedgerEvent, h: string)
    requires IsDeposit(e) || IsSpend(e)
    ensures SpendHashStored(Stored(mid, e), h) <==> SpendHashStored(mid, h) || (IsSpend(e) && e.eventHash == h)
  {
    if IsSpend(e) {
      SpendHashIsSeen(mid, e, h);
    }
  }

  lemma KeptExtendsAccounts(t: Tables, mid: Tables, events: seq<LedgerEvent>, n: nat)
    requires n < |events| && Accounts(t, mid, events, n) && Kept(t, events, n)
    ensures Accounts(t, Stored(mid, events[n]), events, n + 1)
  {
    var mid' := Stored(mid, events[n]);
    forall f
      ensures Fresh(mid', f) <==> Fresh(t, f) && forall j: nat :: j < n + 1 && Kept(t, events, j) ==> !Repeats(events[j], f)
    {
      StoredIsSeen(mid, events[n], f);
    }
    forall h
      ensures SpendHashStored(mid', h) <==> SpendHashStored(t, h) || KeptSpendHash(t, events, n + 1, h)
    {
      StoredHashIsSeen(mid, events[n], h);
    }
  }

  lemma OneMoreDeposit(before: seq<CommitmentRow>, rows: seq<CommitmentRow>, row: CommitmentRow, events: seq<LedgerEvent>, at: seq<nat>, k: nat)
    requires CopyDeposits(before, rows, events, at) && k < |events| && RowFrom(row, events[k])
    ensures CopyDeposits(before, rows + [row], events, at + [k])
  {
  }

  lemma OneMoreSpend(before: seq<NullifierRow>, rows: seq<NullifierRow>, row: NullifierRow, events: seq<LedgerEvent>, at: seq<nat>, k: nat)
    requires CopySpends(before, rows, events, at) && k < |events| && SpendFrom(row, events[k])
    ensures CopySpends(before, rows + [row], events, at + [k])
  {
  }

  lemma KeptNext(t: Tables, events: seq<LedgerEvent>, n: nat)
    requires n < |events| && Kept(t, events, n)
    ensures KeptDeposits(t, events, n + 1) == KeptDeposits(t, events, n) + (if IsDeposit(events[n]) then [n] else [])
    ensures KeptSpends(t, events, n + 1) == KeptSpends(t, events, n) + (if IsSpend(events[n]) then [n] else [])
  {
  }

  lemma KeptExtendsCopies(t: Tables, mid: Tables, events: seq<LedgerEvent>, n: nat)
    requires n < |events| && Copies(t, mid, events, n) && Kept(t, events, n)
    ensures Copies(t, Stored(mid, events[n]), events, n + 1)
  {
    var e := events[n];
    KeptNext(t, events, n);
    if IsDeposit(e) {
      OneMoreDeposit(t.commitments, mid.commitments, NewCommitment(mid, e), events, KeptDeposits(t, events, n), n);
      assert KeptSpends(t, events, n + 1) == KeptSpends(t, events, n);
    } else {
      OneMoreSpend(t.nullifiers, mid.nullifiers, NewNullifier(e), events, KeptSpends(t, events, n), n);
      assert KeptDeposits(t, events, n + 1) == KeptDeposits(t, events, n);
    }
  }

  lemma DroppedExtendsAccounts(t: Tables, mid: Tables, events: seq<LedgerEvent>, n: nat)
    requires n < |events| && Accounts(t, mid, events, n) && !Kept(t, events, n)
    ensures Accounts(t, mid, events, n + 1)
  {
    assert forall j: nat :: j < n + 1 && Kept(t, events, j) <==> j < n && Kept(t, events, j);
    forall h
      ensures KeptSpendHash(t, events, n + 1, h) <==> KeptSpendHash(t, events, n, h)
    {
    }
  }

  lemma DroppedExtendsCopies(t: Tables, mid: Tables, events: seq<LedgerEvent>, n: nat)
    requires n < |events| && Copies(t, mid, events, n) && !Kept(t, events, n)
    ensures Copies(t, mid, events, n + 1)
  {
    assert KeptDeposits(t, events, n + 1) == KeptDeposits(t, events, n);
    assert KeptSpends(t, events, n + 1) == KeptSpends(t, events, n);
  }

  /** While nothing is refused, the fold keeps going and accounts for the prefix. */
  lemma {:induction false} PrefixOutcome(t: Tables, encryptor: bool, events: seq<LedgerEvent>, n: nat)
    requires n <= |events| && forall k: nat :: k < n ==> !Refused(t, encryptor, events, k)
    ensures ApplyAll(t, encryptor, events[..n]).Ok?
    ensures Accounts(t, ApplyAll(t, encryptor, events[..n]).value, events, n)
    ensures Copies(t, ApplyAll(t, encryptor, events[..n]).value, events, n)
  {
    if n == 0 {
      assert events[..0] == [];
    } else {
      PrefixOutcome(t, encryptor, events, n - 1);
      var mid := ApplyAll(t, encryptor, events[..n - 1]).value;
      ApplyNext(t, mid, encryptor, events, n - 1);
      NextOutcome(t, mid, encryptor, events, n - 1);
      if Kept(t, events, n - 1) {
        KeptExtendsAccounts(t, mid, events, n - 1);
        KeptExtendsCopies(t, mid, events, n - 1);
      } else {
        DroppedExtendsAccounts(t, mid, events, n - 1);
        DroppedExtendsCopies(t, mid, events, n - 1);
      }
    }
  }

  /** What the next event does to tables that account for those before it. */
  lemma NextOutcome(t: Tables, mid: Tables, encryptor: bool, events: seq<LedgerEvent>, n: nat)
    requires n < |events| && Accounts(t, mid, events, n)
    ensures Apply(mid, encryptor, events[n]) ==
      if Refused(t, encryptor, events, n) then Err(RefusalError(encryptor, events[n]))
      else if Kept(t, events, n) then Ok(Stored(mid, events[n]))
      else Ok(mid)
  {
    assert Kept(t, events, n) <==> Fresh(mid, events[n]);
    ApplyByCases(mid, encryptor, events[n]);
  }

  lemma FirstRefusalDecides(t: Tables, encryptor: bool, events: seq<LedgerEvent>, k: nat)
    requires k < |events| && FirstRefused(t, encryptor, events, k)
    ensures ApplyAll(t, encryptor, events) == Err(RefusalError(encryptor, events[k]))
  {
    PrefixOutcome(t, encryptor, events, k);
    var mid := ApplyAll(t, encryptor, events[..k]).value;
    ApplyNext(t, mid, encryptor, events, k);
    NextOutcome(t, mid, encryptor, events, k);
  }

  lemma {:induction false} FindFirstRefusal(t: Tables, encryptor: bool, events: seq<LedgerEvent>, n: nat) returns (k: nat)
    requires n <= |events|
    ensures k <= n && (k < n ==> Refused(t, encryptor, events, k))
    ensures forall j: nat :: j < k ==> !Refused(t, encryptor, events, j)
  {
    if n == 0 {
      k := 0;
    } else {
      k := FindFirstRefusal(t, encryptor, events, n - 1);
      if k == n - 1 && !Refused(t, encryptor, events, k) {
        k := n;
      }
    }
  }

  // ---------------------------------------------------------------------------
  // Batches.
  // ---------------------------------------------------------------------------

  /** The order in which a batch is indexed. */
  ghost function InOrder(events: seq<LedgerEvent>): seq<LedgerEvent> {
    StableSort(events, ByKey())
  }

  predicate IndicesParse(events: seq<LedgerEvent>) {
    forall i :: 0 <= i < |events| && events[i].payload.Dict? ==> events[i].payload.index.Position?
  }

  /** `index` of a payload; a payload that is no dictionary counts as position 0. */
  function PositionOf(e: LedgerEvent): int
    requires e.payload.Dict? ==> e.payload.index.Position?
  {
    if e.payload.Dict? then e.payload.index.value else 0
  }

  /** A batch is indexed by ascending ledger, and within a ledger by ascending position. */
  lemma BatchOrder(events: seq<LedgerEvent>)
    requires IndicesParse(events)
    ensures multiset(InOrder(events)) == multiset(events) && IndicesParse(InOrder(events))
    ensures var s := InOrder(events);
      forall i, j :: 0 <= i < j < |s| ==> s[i].ledger <= s[j].ledger && (s[i].ledger == s[j].ledger ==> PositionOf(s[i]) <= PositionOf(s[j]))
  {
    SortIsPermutation(events, ByKey());
    ByKeyIsTotalPreorder();
    SortIsSorted(events, ByKey());
    var s := InOrder(events);
    forall i | 0 <= i < |s| && s[i].payload.Dict?
      ensures s[i].payload.index.Position?
    {
      SortedElementIsMember(events, ByKey(), i);
    }
    forall i, j | 0 <= i < j < |s|
      ensures s[i].ledger <= s[j].ledger && (s[i].ledger == s[j].ledger ==> PositionOf(s[i]) <= PositionOf(s[j]))
    {
      assert ByKey()(s[i], s[j]);
    }
  }

  lemma IndicesParseIsParsable(events: seq<LedgerEvent>)
    ensures IndicesParse(events) <==> Parsable(events)
  {
    assert forall i :: 0 <= i < |events| ==> events[i] in events;
  }

  /** Exactly when a batch fails, and with which error: some index does not parse, or
      some event that would be indexed needs a missing encryptor or is a spend under
      a used event hash; the first such event in batch order decides. */
  lemma BatchFailsExactly(t: Tables, encryptor: bool, events: seq<LedgerEvent>)
    ensures Batch(t, encryptor, events) == Err(UnparsableIndex) <==> !IndicesParse(events)
    ensures Batch(t, encryptor, events).Ok? <==>
      IndicesParse(events) && forall k: nat :: k < |events| ==> !Refused(t, encryptor, InOrder(events), k)
    ensures forall k: nat :: k < |events| && IndicesParse(events) && FirstRefused(t, encryptor, InOrder(events), k) ==>
      Batch(t, encryptor, events) == Err(RefusalError(encryptor, InOrder(events)[k]))
  {
    IndicesParseIsParsable(events);
    var s := InOrder(events);
    var first := FindFirstRefusal(t, encryptor, s, |s|);
    if first < |s| {
      FirstRefusalDecides(t, encryptor, s, first);
    } else {
      PrefixOutcome(t, encryptor, s, |s|);
      assert s[..|s|] == s;
    }
    forall k: nat | k < |s| && FirstRefused(t, encryptor, s, k)
      ensures ApplyAll(t, encryptor, s) == Err(RefusalError(encryptor, s[k]))
    {
      FirstRefusalDecides(t, encryptor, s, k);
    }
  }

  /** What a finished batch leaves: the rows before it, then one row for every indexed
      event, in batch order, and the counts of each kind. */
  lemma BatchStoresExactly(t: Tables, encryptor: bool, events: seq<LedgerEvent>)
    requires Batch(t, encryptor, events).Ok?
    ensures var b, s := Batch(t, encryptor, events).value, InOrder(events);
      && Copies(t, b.tables, s, |s|)
      && b.commitments == |KeptDeposits(t, s, |s|)| && b.nullifiers == |KeptSpends(t, s, |s|)|
  {
    BatchFailsExactly(t, encryptor, events);
    var s := InOrder(events);
    PrefixOutcome(t, encryptor, s, |s|);
    assert s[..|s|] == s;
  }

  // ---------------------------------------------------------------------------
  // Without the batch's own order.
  // ---------------------------------------------------------------------------

  /** Events of the batch that repeat each other, and spends under one event hash, are
      the same event. */
  ghost predicate Identified(events: seq<LedgerEvent>) {
    forall e, f :: e in events && f in events && (Repeats(e, f) || (IsSpend(e) && IsSpend(f) && e.eventHash == f.eventHash)) ==> e == f
  }

  lemma FirstOccurrence(events: seq<LedgerEvent>, e: LedgerEvent) returns (k: nat)
    requires e in events
    ensures k < |events| && events[k] == e && forall j :: 0 <= j < k ==> events[j] != e
  {
    k := 0;
    while events[k] != e
      invariant k < |events| && forall j :: 0 <= j < k ==> events[j] != e
      decreases |events| - k
    {
      k := k + 1;
    }
  }

  lemma FreshIsKept(t: Tables, events: seq<LedgerEvent>, e: LedgerEvent) returns (k: nat)
    requires Identified(events) && e in events && Fresh(t, e)
    ensures k < |events| && events[k] == e && Kept(t, events, k)
  {
    k := FirstOccurrence(events, e);
    forall j: nat | j < k && Kept(t, events, j)
      ensures !Repeats(events[j], events[k])
    {
      assert events[j] in events;
    }
  }

  /** An event that fails the batch: fresh, and private without an encryptor, or a
      spend under the event hash of a stored one. */
  predicate Fatal(t: Tables, encryptor: bool, e: LedgerEvent) {
    Fresh(t, e) && (Unencryptable(encryptor, e) || (IsSpend(e) && SpendHashStored(t, e.eventHash)))
  }

  lemma FatalIsRefused(t: Tables, encryptor: bool, events: seq<LedgerEvent>, e: LedgerEvent) returns (k: nat)
    requires Identified(events) && e in events && Fatal(t, encryptor, e)
    ensures k < |events| && events[k] == e && Refused(t, encryptor, events, k)
  {
    k := FreshIsKept(t, events, e);
  }

  lemma RefusedIsFatal(t: Tables, encryptor: bool, events: seq<LedgerEvent>, k: nat)
    requires Identified(events) && k < |events| && Refused(t, encryptor, events, k)
    ensures Fatal(t, encryptor, events[k])
  {
    forall j: nat | j < k && Kept(t, events, j) && IsSpend(events[j]) && IsSpend(events[k])
      ensures events[j].eventHash != events[k].eventHash
    {
      assert !Repeats(events[j], events[k]) && events[j] in events && events[k] in events;
    }
  }

  /** When events are told apart by their hashes, commitments and nullifiers, a batch
      succeeds exactly when its indices parse and it holds no fatal event, whatever
      the order of arrival. */
  lemma BatchSucceedsExactly(t: Tables, encryptor: bool, events: seq<LedgerEvent>)
    requires Identified(events)
    ensures Batch(t, encryptor, events).Ok? <==> IndicesParse(events) && forall e :: e in events ==> !Fatal(t, encryptor, e)
  {
    var s := InOrder(events);
    SortKeepsMembers(events, ByKey());
    BatchFailsExactly(t, encryptor, events);
    if k: nat :| k < |s| && Refused(t, encryptor, s, k) {
      RefusedIsFatal(t, encryptor, s, k);
      assert s[k] in events;
    } else if e :| e in events && Fatal(t, encryptor, e) {
      var k := FatalIsRefused(t, encryptor, s, e);
    }
  }

  /** With an encryptor, a batch whose indices parse and whose fresh spends use fresh
      hashes, one each, always succeeds. */
  lemma EncryptedBatchSucceeds(t: Tables, events: seq<LedgerEvent>)
    requires IndicesParse(events)
    requires forall e :: e in events && IsSpend(e) && !SpendStored(t, e) ==> !SpendHashStored(t, e.eventHash)
    requires forall e, f :: e in events && f in events && IsSpend(e) && IsSpend(f) && e.eventHash == f.eventHash ==>
      e.payload.nullifier == f.payload.nullifier
    ensures Batch(t, true, events).Ok?
  {
    var s := InOrder(events);
    SortKeepsMembers(events, ByKey());
    BatchFailsExactly(t, true, events);
    forall k: nat | k < |s|
      ensures !Refused(t, true, s, k)
    {
      assert s[k] in events;
      forall j: nat | j < k && Kept(t, s, j) && Kept(t, s, k) && IsSpend(s[j]) && IsSpend(s[k])
        ensures s[j].eventHash != s[k].eventHash
      {
        assert !Repeats(s[j], s[k]) && s[j] in events;
      }
    }
  }
}
