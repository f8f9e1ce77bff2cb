/** Anchor settlement: pollers (app/services/anchor_status_poller.py) and webhooks
    (app/adapters/anchor.py) that write the same remittance rows.

    Each SQL statement is atomic, and workers interleave at every await. */
module AnchorSettlement {
  import opened Results

  type Id = string
  type Worker = nat

  const PENDING := "pending_external"
  const COMPLETED := "COMPLETED"
  const POLLABLE := {"completed", "complete", "delivered", "settled", "success"}
  const BATCH: nat := 100

  // ---------------------------------------------------------------------------
  // Status text (ASCII letters).
  // ---------------------------------------------------------------------------

  function UpperChar(c: char): char {
    if 'a' <= c <= 'z' then 'A' + (c - 'a') else c
  }

  function LowerChar(c: char): char {
    if 'A' <= c <= 'Z' then 'a' + (c - 'A') else c
  }

  function Upper(s: string): string {
    seq(|s|, i requires 0 <= i < |s| => UpperChar(s[i]))
  }

  function Lower(s: string): string {
    seq(|s|, i requires 0 <= i < |s| => LowerChar(s[i]))
  }

  predicate IsSpace(c: char) {
    c == ' ' || '\t' <= c <= '\r'
  }

  function Strip(s: string): string
    decreases |s|
  {
    if s == "" then ""
    else if IsSpace(s[0]) then Strip(s[1..])
    else if IsSpace(s[|s| - 1]) then Strip(s[..|s| - 1])
    else s
  }

  /** The anchor's status text, if it is text at all, trimmed and lower-cased. */
  function ExtractStatus(value: Option<string>): Option<string> {
    if value.None? || Strip(value.value) == "" then None else Some(Lower(Strip(value.value)))
  }

  predicate IsCompletedStatus(status: Option<string>) {
    status.Some? && status.value in POLLABLE
  }

  /** An upper-cased status is never the pending one. */
  lemma UpperIsNeverPending(s: string)
    ensures Upper(s) != PENDING
  {
    if |s| == |PENDING| {
      assert Upper(s)[0] != PENDING[0];
    }
  }

  /** Upper-casing moves the letters a to z to their capitals, 32 code points below, and
      keeps every other character; a second time it changes nothing. */
  lemma UpperByCharacters(s: string, i: nat)
    requires i < |s|
    ensures |Upper(s)| == |s| && Upper(Upper(s)) == Upper(s)
    ensures if 'a' <= s[i] <= 'z' then Upper(s)[i] as int == s[i] as int - 32 else Upper(s)[i] == s[i]
  {
    assert forall k :: 0 <= k < |s| ==> Upper(Upper(s))[k] == Upper(s)[k];
  }

  /** Lower-casing moves the capitals to their letters and keeps every other character. */
  lemma LowerByCharacters(s: string, i: nat)
    requires i < |s|
    ensures |Lower(s)| == |s|
    ensures if 'A' <= s[i] <= 'Z' then Lower(s)[i] as int == s[i] as int + 32 else Lower(s)[i] == s[i]
  {
  }

  /** Blank, tab, line feed, vertical tab, form feed or carriage return. */
  predicate AllSpace(s: string) {
    forall i :: 0 <= i < |s| ==> s[i] == ' ' || 9 <= s[i] as int <= 13
  }

  /** A text is its trimmed part between two runs of white space. */
  ghost predicate Surrounds(s: string, i: int, j: int) {
    0 <= i <= j <= |s| && AllSpace(s[..i]) && AllSpace(s[j..])
  }

  ghost predicate Trimmed(s: string) {
    s == "" || (!AllSpace([s[0]]) && !AllSpace([s[|s| - 1]]))
  }

  lemma SpaceByCode(c: char)
    ensures IsSpace(c) <==> AllSpace([c])
  {
    assert [c][0] == c;
  }

  lemma SpaceJoins(s: string, t: string)
    requires AllSpace(s) && AllSpace(t)
    ensures AllSpace(s + t)
  {
  }

  lemma SliceOfTail(s: string, i: nat, j: nat)
    requires s != "" && i <= j < |s|
    ensures s[1..][i..j] == s[i + 1..j + 1] && s[1..][..i] == s[..i + 1][1..] && s[1..][j..] == s[j + 1..]
  {
    assert forall k :: 0 <= k < j - i ==> s[1..][i..j][k] == s[i + 1..j + 1][k];
  }

  lemma SpaceInFront(s: string, i: nat, j: nat)
    requires s != "" && IsSpace(s[0]) && Surrounds(s[1..], i, j)
    ensures Surrounds(s, i + 1, j + 1) && s[i + 1..j + 1] == s[1..][i..j]
  {
    SliceOfTail(s, i, j);
    SpaceByCode(s[0]);
    SpaceJoins([s[0]], s[1..][..i]);
    assert s[..i + 1] == [s[0]] + s[1..][..i];
  }

  lemma SpaceBehind(s: string, i: nat, j: nat)
    requires s != "" && IsSpace(s[|s| - 1]) && Surrounds(s[..|s| - 1], i, j)
    ensures Surrounds(s, i, j) && s[i..j] == s[..|s| - 1][i..j]
  {
    var last := |s| - 1;
    SpaceByCode(s[last]);
    SpaceJoins(s[..last][j..], [s[last]]);
    assert s[..i] == s[..last][..i] && s[j..] == s[..last][j..] + [s[last]];
  }

  lemma WithoutFront(s: string, i: nat, j: nat)
    requires 0 < i && Surrounds(s, i, j)
    ensures IsSpace(s[0]) && Surrounds(s[1..], i - 1, j - 1) && s[1..][i - 1..j - 1] == s[i..j]
  {
    SliceOfTail(s, i - 1, j - 1);
    SpaceByCode(s[0]);
    assert s[..i][0] == s[0];
  }

  lemma WithoutBack(s: string, i: nat, j: nat)
    requires Surrounds(s, i, j) && j < |s|
    ensures IsSpace(s[|s| - 1]) && Surrounds(s[..|s| - 1], i, j) && s[..|s| - 1][i..j] == s[i..j]
  {
    var last := |s| - 1;
    SpaceByCode(s[last]);
    assert s[j..][last - j] == s[last];
    assert s[..last][..i] == s[..i] && s[..last][j..] == s[j..][..last - j];
  }

  lemma {:induction false} StripTrims(s: string) returns (i: nat, j: nat)
    ensures Surrounds(s, i, j) && Strip(s) == s[i..j] && Trimmed(Strip(s))
    decreases |s|
  {
    if s == "" {
      i, j := 0, 0;
    } else if IsSpace(s[0]) {
      i, j := StripTrims(s[1..]);
      SpaceInFront(s, i, j);
      i, j := i + 1, j + 1;
    } else if IsSpace(s[|s| - 1]) {
      i, j := StripTrims(s[..|s| - 1]);
      SpaceBehind(s, i, j);
    } else {
      i, j := 0, |s|;
      SpaceByCode(s[0]);
      SpaceByCode(s[|s| - 1]);
    }
  }

  lemma {:induction false} StripIsUnique(s: string, i: nat, j: nat)
    requires Surrounds(s, i, j) && i < j && Trimmed(s[i..j])
    ensures Strip(s) == s[i..j]
    decreases |s|
  {
    if i > 0 {
      WithoutFront(s, i, j);
      StripIsUnique(s[1..], i - 1, j - 1);
    } else if j < |s| {
      WithoutBack(s, i, j);
      SpaceByCode(s[0]);
      assert s[i..j][0] == s[0];
      StripIsUnique(s[..|s| - 1], i, j);
    } else {
      SpaceByCode(s[0]);
      SpaceByCode(s[|s| - 1]);
      assert s[i..j] == s;
    }
  }

  predicate IsWord(s: string) {
    s == "completed" || s == "complete" || s == "delivered" || s == "settled" || s == "success"
  }

  lemma WordsAreTrimmed(s: string)
    requires IsWord(Lower(s))
    ensures s != "" && Trimmed(s)
  {
    LowerByCharacters(s, 0);
    LowerByCharacters(s, |s| - 1);
    SpaceByCode(s[0]);
    SpaceByCode(s[|s| - 1]);
  }

  /** Which answers of an anchor mean completed: those that are text, and whose part
      between white space is one of five words, in any letter case. */
  lemma CompletedAnswersExactly(answer: Option<string>)
    ensures IsCompletedStatus(ExtractStatus(answer)) <==>
      answer.Some? && exists i, j :: Surrounds(answer.value, i, j) && IsWord(Lower(answer.value[i..j]))
  {
    if answer.Some? {
      var s := answer.value;
      if IsCompletedStatus(ExtractStatus(answer)) {
        var i, j := StripTrims(s);
        assert Surrounds(s, i, j) && IsWord(Lower(s[i..j]));
      } else if i, j :| Surrounds(s, i, j) && IsWord(Lower(s[i..j])) {
        WordsAreTrimmed(s[i..j]);
        StripIsUnique(s, i, j);
      }
    }
  }

  // ---------------------------------------------------------------------------
  // The rows and the two writers.
  // ---------------------------------------------------------------------------

  datatype Remittance = Remittance(status: string, reference: Option<string>)

  type Rows = map<Id, Remittance>

  predicate Matches(rows: Rows, id: Id, key: string)
    requires id in rows
  {
    id == key || rows[id].reference == Some(key)
  }

  /** The webhook's UPDATE: every row whose id or reference is the given key. */
  function Transitioned(rows: Rows, key: string, status: string): Rows {
    map id | id in rows :: if Matches(rows, id, key) then rows[id].(status := status) else rows[id]
  }

  predicate IsPending(rows: Rows, id: Id) {
    id in rows && rows[id].status == PENDING
  }

  /** The poller's UPDATE: one row, only while it is still pending. */
  function Marked(rows: Rows, id: Id): Rows {
    if IsPending(rows, id) then rows[id := rows[id].(status := COMPLETED)] else rows
  }

  class RemittanceTable {
    var rows: Rows

    method MarkCompleted(id: Id) returns (changed: bool)
      modifies this
      ensures rows == Marked(old(rows), id)
      ensures changed <==> IsPending(old(rows), id)
      ensures changed <==> id in old(rows) && old(rows)[id].status == "pending_external"
      ensures rows == if changed then old(rows)[id := old(rows)[id].(status := "COMPLETED")] else old(rows)
      ensures changed ==> !IsPending(rows, id)
    {
      changed := false;
      if id in rows && rows[id].status == PENDING {
        rows := rows[id := rows[id].(status := COMPLETED)];
        changed := true;
      }
    }

    /** One row of a poll: marked only when the anchor's answer means completed. */
    method ProcessRow(id: Id, answer: Option<string>) returns (changed: bool)
      modifies this
      ensures rows == if IsCompletedStatus(ExtractStatus(answer)) then Marked(old(rows), id) else old(rows)
      ensures changed <==> IsCompletedStatus(ExtractStatus(answer)) && IsPending(old(rows), id)
    {
      if !IsCompletedStatus(ExtractStatus(answer)) {
        return false;
      }
      changed := MarkCompleted(id);
    }

    /** False when the payload lacks an id or a status and is refused.  `stored` is
        whether the database took the update; a failure is logged and swallowed. */
    method ReceiveWebhook(key: string, status: string, stored: bool) returns (accepted: bool)
      modifies this
      ensures accepted <==> key != "" && status != ""
      ensures rows == if accepted && stored then Transitioned(old(rows), key, Upper(status)) else old(rows)
    {
      if key == "" || status == "" {
        return false;
      }
      TransitionRemittanceStatus(key, Upper(status), stored);
      return true;
    }

    method TransitionRemittanceStatus(key: string, status: string, stored: bool)
      modifies this
      ensures rows == if stored then Transitioned(old(rows), key, status) else old(rows)
      ensures rows.Keys == old(rows).Keys
      ensures forall id :: id in rows ==> rows[id].reference == old(rows)[id].reference
      ensures forall id :: id in rows ==>
        rows[id].status == if stored && (id == key || old(rows)[id].reference == Some(key)) then status else old(rows)[id].status
    {
      if !stored {
        return;
      }
      var rest := rows.Keys;
      while rest != {}
        invariant rest <= rows.Keys == old(rows).Keys
        invariant forall id :: id in rows ==>
          rows[id] == if id !in rest && Matches(old(rows), id, key) then old(rows)[id].(status := status) else old(rows)[id]
        decreases |rest|
      {
        var id :| id in rest;
        if id == key || rows[id].reference == Some(key) {
          rows := rows[id := rows[id].(status := status)];
        }
        rest := rest - {id};
      }
    }
  }

  // ---------------------------------------------------------------------------
  // The protocol.
  // ---------------------------------------------------------------------------

  /** Where one `poll_once` call is: about to fetch the first id of its batch,
      about to mark it, or about to publish it. */
  datatype Poll =
    | Fetching(batch: seq<Id>)
    | Marking(id: Id, rest: seq<Id>)
    | Publishing(id: Id, rest: seq<Id>)

  /** `left` counts departures from the pending status; `claimed`, `published` and
      `lost` count rows marked by pollers, announced, and marked but never announced:
      the update raised after it was committed, publishing raised, or the poll was
      cancelled in between. */
  datatype State = State(
    rows: Rows,
    polls: map<Worker, Poll>,
    left: map<Id, nat>,
    claimed: multiset<Id>,
    published: multiset<Id>,
    lost: multiset<Id>)

  datatype Action =
    | Create(id: Id, status: string, reference: Option<string>)
    | PollBegin(worker: Worker, batch: seq<Id>)
    | Fetch(worker: Worker, settled: bool)
    | Mark(worker: Worker)
    | MarkRaises(worker: Worker, committed: bool)
    | Publish(worker: Worker)
    | PublishRaises(worker: Worker)
    | PollEnd(worker: Worker)
    | PollCancelled(worker: Worker)
    | Webhook(key: string, status: string, stored: bool)

  const INITIAL := State(map[], map[], map[], multiset{}, multiset{}, multiset{})

  ghost predicate Enabled(s: State, a: Action) {
    match a
    case Create(id, _, _) => id !in s.rows && id !in s.left
    case PollBegin(w, batch) =>
      && w !in s.polls && |batch| <= BATCH
      && (forall i, j :: 0 <= i < j < |batch| ==> batch[i] != batch[j])
      && (forall id :: id in batch ==> IsPending(s.rows, id) && s.rows[id].reference.Some?)
    case Fetch(w, _) => w in s.polls && s.polls[w].Fetching? && s.polls[w].batch != []
    case Mark(w) => w in s.polls && s.polls[w].Marking?
    case MarkRaises(w, _) => w in s.polls && s.polls[w].Marking?
    case Publish(w) => w in s.polls && s.polls[w].Publishing?
    case PublishRaises(w) => w in s.polls && s.polls[w].Publishing?
    case PollEnd(w) => w in s.polls && s.polls[w].Fetching? && s.polls[w].batch == []
    case PollCancelled(w) => w in s.polls
    case Webhook(_, _, _) => true
  }

  /** Write the rows, counting every row that leaves the pending status. */
  function WithRows(s: State, rows: Rows): State
    requires s.left.Keys == s.rows.Keys == rows.Keys
  {
    s.(rows := rows,
       left := map id | id in s.left :: s.left[id] + (if IsPending(s.rows, id) && !IsPending(rows, id) then 1 else 0))
  }

  function AtPoll(s: State, w: Worker, poll: Poll): State {
    s.(polls := s.polls[w := poll])
  }

  ghost function Next(s: State, a: Action): State
    requires s.left.Keys == s.rows.Keys && Enabled(s, a)
  {
    match a
    case Create(id, status, reference) =>
      s.(rows := s.rows[id := Remittance(status, reference)], left := s.left[id := 0])
    case PollBegin(w, batch) => AtPoll(s, w, Fetching(batch))
    case Fetch(w, settled) =>
      var batch := s.polls[w].batch;
      if settled then AtPoll(s, w, Marking(batch[0], batch[1..]))
      else AtPoll(s, w, Fetching(batch[1..]))
    case Mark(w) =>
      var poll := s.polls[w];
      if IsPending(s.rows, poll.id) then
        AtPoll(WithRows(s, Marked(s.rows, poll.id)), w, Publishing(poll.id, poll.rest)).(claimed := s.claimed + multiset{poll.id})
      else AtPoll(s, w, Fetching(poll.rest))
    case MarkRaises(w, committed) =>
      var poll := s.polls[w];
      if committed && IsPending(s.rows, poll.id) then
        AtPoll(WithRows(s, Marked(s.rows, poll.id)), w, Fetching(poll.rest))
          .(claimed := s.claimed + multiset{poll.id}, lost := s.lost + multiset{poll.id})
      else AtPoll(s, w, Fetching(poll.rest))
    case Publish(w) => AtPoll(s, w, Fetching(s.polls[w].rest)).(published := s.published + multiset{s.polls[w].id})
    case PublishRaises(w) => AtPoll(s, w, Fetching(s.polls[w].rest)).(lost := s.lost + multiset{s.polls[w].id})
    case PollEnd(w) => s.(polls := s.polls - {w})
    case PollCancelled(w) =>
      s.(polls := s.polls - {w}, lost := s.lost + if s.polls[w].Publishing? then multiset{s.polls[w].id} else multiset{})
    case Webhook(key, status, stored) =>
      if key == "" || status == "" || !stored then s else WithRows(s, Transitioned(s.rows, key, Upper(status)))
  }

  // ---------------------------------------------------------------------------
  // The invariant.
  // ---------------------------------------------------------------------------

  /** The workers that have marked a row and not yet announced it. */
  function Announcing(polls: map<Worker, Poll>, id: Id): set<Worker> {
    set w | w in polls && polls[w].Publishing? && polls[w].id == id
  }

  /** A row leaves the pending status at most once, and never comes back to it. */
  ghost predicate LeavesOnce(s: State) {
    && s.left.Keys == s.rows.Keys
    && forall id :: id in s.rows ==> s.left[id] + (if IsPending(s.rows, id) then 1 else 0) <= 1
  }

  /** Every row marked by a poller left pending by it, and is announced, being
      announced, or lost: never more than one of these. */
  ghost predicate ClaimsAdd(s: State) {
    && (forall id :: id in s.claimed ==> id in s.left && s.claimed[id] <= s.left[id])
    && (forall id :: s.published[id] + s.lost[id] + |Announcing(s.polls, id)| == s.claimed[id])
  }

  ghost predicate Inv(s: State) {
    LeavesOnce(s) && ClaimsAdd(s)
  }

  lemma MovingOff(polls: map<Worker, Poll>, w: Worker, poll: Poll)
    requires w in polls && polls[w].Publishing? && !poll.Publishing?
    ensures |Announcing(polls[w := poll], polls[w].id)| == |Announcing(polls, polls[w].id)| - 1
    ensures forall id :: id != polls[w].id ==> Announcing(polls[w := poll], id) == Announcing(polls, id)
  {
    var id := polls[w].id;
    assert w in Announcing(polls, id);
    assert Announcing(polls[w := poll], id) == Announcing(polls, id) - {w};
  }

  lemma MovingOn(polls: map<Worker, Poll>, w: Worker, poll: Poll)
    requires w in polls && !polls[w].Publishing? && poll.Publishing?
    ensures |Announcing(polls[w := poll], poll.id)| == |Announcing(polls, poll.id)| + 1
    ensures forall id :: id != poll.id ==> Announcing(polls[w := poll], id) == Announcing(polls, id)
  {
    assert Announcing(polls[w := poll], poll.id) == Announcing(polls, poll.id) + {w};
  }

  lemma LeavingOff(polls: map<Worker, Poll>, w: Worker)
    requires w in polls && polls[w].Publishing?
    ensures |Announcing(polls - {w}, polls[w].id)| == |Announcing(polls, polls[w].id)| - 1
    ensures forall id :: id != polls[w].id ==> Announcing(polls - {w}, id) == Announcing(polls, id)
  {
    var id := polls[w].id;
    assert w in Announcing(polls, id);
    assert Announcing(polls - {w}, id) == Announcing(polls, id) - {w};
  }

  lemma MovingQuietly(polls: map<Worker, Poll>, w: Worker, poll: Poll)
    requires (w in polls ==> !polls[w].Publishing?) && !poll.Publishing?
    ensures forall id :: Announcing(polls[w := poll], id) == Announcing(polls, id)
  {
    forall id: Id
      ensures Announcing(polls[w := poll], id) == Announcing(polls, id)
    {
    }
  }

  lemma LeavingQuietly(polls: map<Worker, Poll>, w: Worker)
    requires w in polls && !polls[w].Publishing?
    ensures forall id :: Announcing(polls - {w}, id) == Announcing(polls, id)
  {
    forall id: Id
      ensures Announcing(polls - {w}, id) == Announcing(polls, id)
    {
    }
  }

  /** No row that is not pending becomes pending. */
  ghost predicate NeverBack(rows: Rows, rows': Rows) {
    rows.Keys <= rows'.Keys && forall id :: id in rows && !IsPending(rows, id) ==> !IsPending(rows', id)
  }

  lemma WebhookNeverRestores(rows: Rows, key: string, status: string)
    ensures NeverBack(rows, Transitioned(rows, key, Upper(status)))
  {
    UpperIsNeverPending(status);
  }

  lemma MarkNeverRestores(rows: Rows, id: Id)
    ensures NeverBack(rows, Marked(rows, id))
    ensures !IsPending(Marked(rows, id), id)
  {
    assert COMPLETED[0] != PENDING[0];
  }

  lemma WritingKeepsLeavesOnce(s: State, rows: Rows)
    requires LeavesOnce(s) && rows.Keys == s.rows.Keys && NeverBack(s.rows, rows)
    ensures LeavesOnce(WithRows(s, rows))
    ensures forall id :: id in s.left ==> WithRows(s, rows).left[id] >= s.left[id]
  {
  }

  lemma MarkKeepsLeavesOnce(s: State, id: Id)
    requires LeavesOnce(s)
    ensures LeavesOnce(WithRows(s, Marked(s.rows, id)))
    ensures forall k :: k in s.left ==> WithRows(s, Marked(s.rows, id)).left[k] >= s.left[k]
  {
    MarkNeverRestores(s.rows, id);
    WritingKeepsLeavesOnce(s, Marked(s.rows, id));
  }

  lemma TransitionKeepsLeavesOnce(s: State, key: string, status: string)
    requires LeavesOnce(s)
    ensures LeavesOnce(WithRows(s, Transitioned(s.rows, key, Upper(status))))
    ensures forall k :: k in s.left ==> WithRows(s, Transitioned(s.rows, key, Upper(status))).left[k] >= s.left[k]
  {
    WebhookNeverRestores(s.rows, key, status);
    WritingKeepsLeavesOnce(s, Transitioned(s.rows, key, Upper(status)));
  }

  lemma StepNeverRestores(s: State, a: Action)
    requires s.left.Keys == s.rows.Keys && Enabled(s, a)
    ensures NeverBack(s.rows, Next(s, a).rows)
  {
    match a
    case Webhook(key, status, _) => WebhookNeverRestores(s.rows, key, status);
    case Mark(w) => MarkNeverRestores(s.rows, s.polls[w].id);
    case MarkRaises(w, _) => MarkNeverRestores(s.rows, s.polls[w].id);
    case _ =>
  }

  predicate Writes(a: Action) {
    a.Webhook? || a.Mark? || a.MarkRaises?
  }

  lemma WriteKeepsLeavesOnce(s: State, a: Action)
    requires LeavesOnce(s) && Enabled(s, a) && Writes(a)
    ensures LeavesOnce(Next(s, a))
    ensures forall id :: id in s.left ==> id in Next(s, a).left && Next(s, a).left[id] >= s.left[id]
  {
    match a
    case Webhook(key, status, _) => TransitionKeepsLeavesOnce(s, key, status);
    case Mark(w) => MarkKeepsLeavesOnce(s, s.polls[w].id);
    case MarkRaises(w, _) => MarkKeepsLeavesOnce(s, s.polls[w].id);
  }

  lemma StepKeepsLeavesOnce(s: State, a: Action)
    requires LeavesOnce(s) && Enabled(s, a)
    ensures LeavesOnce(Next(s, a))
    ensures forall id :: id in s.left ==> id in Next(s, a).left && Next(s, a).left[id] >= s.left[id]
  {
    if Writes(a) {
      WriteKeepsLeavesOnce(s, a);
    }
  }

  lemma MarkKeepsClaims(s: State, w: Worker)
    requires Inv(s) && Enabled(s, Mark(w))
    ensures ClaimsAdd(Next(s, Mark(w)))
  {
    var s' := Next(s, Mark(w));
    var id := s.polls[w].id;
    if IsPending(s.rows, id) {
      MarkNeverRestores(s.rows, id);
      StepKeepsLeavesOnce(s, Mark(w));
      MovingOn(s.polls, w, s'.polls[w]);
      assert s.left[id] == 0 && s'.left[id] == 1;
    } else {
      MovingQuietly(s.polls, w, s'.polls[w]);
    }
  }

  lemma LostMarkKeepsClaims(s: State, w: Worker)
    requires Inv(s) && Enabled(s, MarkRaises(w, true)) && IsPending(s.rows, s.polls[w].id)
    ensures ClaimsAdd(Next(s, MarkRaises(w, true)))
  {
    var s' := Next(s, MarkRaises(w, true));
    var id := s.polls[w].id;
    MarkNeverRestores(s.rows, id);
    StepKeepsLeavesOnce(s, MarkRaises(w, true));
    MovingQuietly(s.polls, w, s'.polls[w]);
    assert s.left[id] == 0 && s'.left[id] == 1;
  }

  lemma PublishKeepsClaims(s: State, a: Action)
    requires Inv(s) && Enabled(s, a) && (a.Publish? || a.PublishRaises?)
    ensures ClaimsAdd(Next(s, a))
  {
    MovingOff(s.polls, a.worker, Next(s, a).polls[a.worker]);
  }

  lemma CancelKeepsClaims(s: State, w: Worker)
    requires Inv(s) && Enabled(s, PollCancelled(w)) && s.polls[w].Publishing?
    ensures ClaimsAdd(Next(s, PollCancelled(w)))
  {
    LeavingOff(s.polls, w);
  }

  /** The step neither claims a row nor ends a claim. */
  ghost predicate Quiet(s: State, a: Action)
    requires Enabled(s, a)
  {
    match a
    case Mark(_) => false
    case Publish(_) => false
    case PublishRaises(_) => false
    case MarkRaises(w, committed) => !(committed && IsPending(s.rows, s.polls[w].id))
    case PollCancelled(w) => !s.polls[w].Publishing?
    case _ => true
  }

  lemma QuietKeepsClaims(s: State, a: Action)
    requires Inv(s) && Enabled(s, a) && Quiet(s, a)
    ensures ClaimsAdd(Next(s, a))
  {
    QuietLeavesClaims(s, a);
    StepKeepsLeavesOnce(s, a);
    ClaimsCarryOver(s, Next(s, a));
  }

  lemma QuietLeavesClaims(s: State, a: Action)
    requires Inv(s) && Enabled(s, a) && Quiet(s, a)
    ensures var s' := Next(s, a);
      && s'.claimed == s.claimed && s'.published == s.published && s'.lost == s.lost
      && forall id :: Announcing(s'.polls, id) == Announcing(s.polls, id)
  {
    match a
    case PollBegin(w, batch) => MovingQuietly(s.polls, w, Fetching(batch));
    case Fetch(w, settled) => MovingQuietly(s.polls, w, Next(s, a).polls[w]);
    case MarkRaises(w, _) => MovingQuietly(s.polls, w, Fetching(s.polls[w].rest));
    case PollEnd(w) => LeavingQuietly(s.polls, w);
    case PollCancelled(w) => LeavingQuietly(s.polls, w);
    case Create(_, _, _) =>
    case Webhook(_, _, _) =>
  }

  lemma ClaimsCarryOver(s: State, s': State)
    requires ClaimsAdd(s) && s'.claimed == s.claimed && s'.published == s.published && s'.lost == s.lost
    requires forall id :: Announcing(s'.polls, id) == Announcing(s.polls, id)
    requires forall id :: id in s.left ==> id in s'.left && s'.left[id] >= s.left[id]
    ensures ClaimsAdd(s')
  {
    forall id: Id
      ensures s'.published[id] + s'.lost[id] + |Announcing(s'.polls, id)| == s'.claimed[id]
    {
      assert Announcing(s'.polls, id) == Announcing(s.polls, id);
    }
  }

  lemma StepKeepsInv(s: State, a: Action)
    requires Inv(s) && Enabled(s, a)
    ensures Inv(Next(s, a))
  {
    StepKeepsLeavesOnce(s, a);
    if Quiet(s, a) {
      QuietKeepsClaims(s, a);
    } else {
      match a
      case Mark(w) => MarkKeepsClaims(s, w);
      case MarkRaises(w, _) => LostMarkKeepsClaims(s, w);
      case PollCancelled(w) => CancelKeepsClaims(s, w);
      case _ => PublishKeepsClaims(s, a);
    }
  }

  // ---------------------------------------------------------------------------
  // Every interleaving.
  // ---------------------------------------------------------------------------

  ghost predicate IsRun(states: seq<State>, actions: seq<Action>) {
    && |states| == |actions| + 1
    && states[0] == INITIAL
    && forall i {:trigger actions[i]} :: 0 <= i < |actions| ==>
      states[i].left.Keys == states[i].rows.Keys && Enabled(states[i], actions[i]) && states[i + 1] == Next(states[i], actions[i])
  }

  lemma {:induction false} RunKeepsInv(states: seq<State>, actions: seq<Action>, i: nat)
    requires IsRun(states, actions) && i < |states|
    ensures Inv(states[i])
  {
    if i > 0 {
      RunKeepsInv(states, actions, i - 1);
      StepKeepsInv(states[i - 1], actions[i - 1]);
    }
  }

  /** In every interleaving a remittance leaves `pending_external` at most once, is
      announced by pollers at most once, and only after a poller completed it. */
  lemma CompletionIsAnnouncedAtMostOnce(states: seq<State>, actions: seq<Action>, i: nat, id: Id)
    requires IsRun(states, actions) && i < |states|
    ensures id in states[i].rows ==> id in states[i].left && states[i].left[id] <= 1
    ensures states[i].published[id] <= states[i].claimed[id] <= 1
  {
    RunKeepsInv(states, actions, i);
    assert states[i].published[id] + states[i].lost[id] + |Announcing(states[i].polls, id)| == states[i].claimed[id];
  }

  /** Once every poll has ended, a row completed by a poller has been announced
      exactly once, unless its announcement was lost, and then it never will be. */
  lemma AnnouncedExactlyOnceUnlessLost(states: seq<State>, actions: seq<Action>, i: nat, id: Id)
    requires IsRun(states, actions) && i < |states| && states[i].polls == map[] && id in states[i].claimed
    ensures states[i].published[id] + states[i].lost[id] == 1
  {
    RunKeepsInv(states, actions, i);
    assert Announcing(states[i].polls, id) == {};
  }

  lemma RunStepNeverRestores(states: seq<State>, actions: seq<Action>, i: nat)
    requires IsRun(states, actions) && i < |actions|
    ensures NeverBack(states[i].rows, states[i + 1].rows)
  {
    StepNeverRestores(states[i], actions[i]);
  }

  /** A remittance that is no longer pending never becomes pending again. */
  lemma {:induction false} PendingIsNeverRestored(states: seq<State>, actions: seq<Action>, i: nat, j: nat)
    requires IsRun(states, actions) && i <= j < |states|
    ensures NeverBack(states[i].rows, states[j].rows)
    decreases j
  {
    if i < j {
      PendingIsNeverRestored(states, actions, i, j - 1);
      RunStepNeverRestores(states, actions, j - 1);
      NeverBackIsTransitive(states[i].rows, states[j - 1].rows, states[j].rows);
    }
  }

  lemma NeverBackIsTransitive(a: Rows, b: Rows, c: Rows)
    requires NeverBack(a, b) && NeverBack(b, c)
    ensures NeverBack(a, c)
  {
  }

  // ---------------------------------------------------------------------------
  // Completions happen.
  // ---------------------------------------------------------------------------

  ghost function Last(states: seq<State>): State
    requires states != []
  {
    states[|states| - 1]
  }

  lemma OneStep(states: seq<State>, actions: seq<Action>, a: Action)
    requires IsRun(states, actions) && Last(states).left.Keys == Last(states).rows.Keys && Enabled(Last(states), a)
    ensures IsRun(states + [Next(Last(states), a)], actions + [a])
  {
    var states', actions' := states + [Next(Last(states), a)], actions + [a];
    forall i | 0 <= i < |actions'|
      ensures states'[i].left.Keys == states'[i].rows.Keys && Enabled(states'[i], actions'[i])
        && states'[i + 1] == Next(states'[i], actions'[i])
    {
      if i < |actions| {
        assert actions'[i] == actions[i] && states'[i] == states[i] && states'[i + 1] == states[i + 1];
      }
    }
  }

  /** The actions can be taken one after the other and lead from one state to the other. */
  ghost predicate LeadsTo(s: State, more: seq<Action>, s': State)
    decreases |more|
  {
    if more == [] then s' == s
    else s.left.Keys == s.rows.Keys && Enabled(s, more[0]) && LeadsTo(Next(s, more[0]), more[1..], s')
  }

  lemma LeadsOn(s: State, a: Action, rest: seq<Action>, s': State)
    requires s.left.Keys == s.rows.Keys && Enabled(s, a) && LeadsTo(Next(s, a), rest, s')
    ensures LeadsTo(s, [a] + rest, s')
  {
    assert ([a] + rest)[1..] == rest;
  }

  /** What can be done from a reachable state is a run. */
  lemma {:induction false} RunGoesOn(states: seq<State>, actions: seq<Action>, more: seq<Action>, s': State) returns (states': seq<State>)
    requires IsRun(states, actions) && LeadsTo(Last(states), more, s')
    ensures IsRun(states', actions + more) && states <= states' && Last(states') == s'
    decreases |more|
  {
    if more == [] {
      states' := states;
      assert actions + more == actions;
    } else {
      OneStep(states, actions, more[0]);
      states' := RunGoesOn(states + [Next(Last(states), more[0])], actions + [more[0]], more[1..], s');
      assert actions + [more[0]] + more[1..] == actions + more;
    }
  }

  lemma PollReachesRow(s: State, w: Worker, id: Id, s': State)
    requires s.left.Keys == s.rows.Keys && w !in s.polls && IsPending(s.rows, id) && s.rows[id].reference.Some?
    requires s' == AtPoll(s, w, Marking(id, []))
    ensures LeadsTo(s, [PollBegin(w, [id]), Fetch(w, true)], s')
  {
    var s1 := Next(s, PollBegin(w, [id]));
    assert [id][1..] == [] && s.polls[w := Fetching([id])][w := Marking(id, [])] == s.polls[w := Marking(id, [])];
    assert LeadsTo(s', [], s') && Next(s1, Fetch(w, true)) == s';
    LeadsOn(s1, Fetch(w, true), [], s');
    LeadsOn(s, PollBegin(w, [id]), [Fetch(w, true)], s');
    assert [Fetch(w, true)] + [] == [Fetch(w, true)];
    assert [PollBegin(w, [id])] + [Fetch(w, true)] == [PollBegin(w, [id]), Fetch(w, true)];
  }

  /** The state in which a row has been completed and announced. */
  ghost predicate Announced(s: State, id: Id, s': State) {
    && id in s.rows && s'.rows == s.rows[id := s.rows[id].(status := "COMPLETED")]
    && s'.published == s.published + multiset{id}
  }

  lemma MarkThenPublish(s: State, w: Worker, id: Id) returns (s': State)
    requires s.left.Keys == s.rows.Keys && w in s.polls && s.polls[w] == Marking(id, []) && IsPending(s.rows, id)
    ensures LeadsTo(s, [Mark(w), Publish(w), PollEnd(w)], s') && Announced(s, id, s') && s'.polls == s.polls - {w}
  {
    var s1 := Next(s, Mark(w));
    var s2 := Next(s1, Publish(w));
    s' := Next(s2, PollEnd(w));
    assert LeadsTo(s', [], s');
    LeadsOn(s2, PollEnd(w), [], s');
    LeadsOn(s1, Publish(w), [PollEnd(w)] + [], s');
    LeadsOn(s, Mark(w), [Publish(w)] + ([PollEnd(w)] + []), s');
    assert [Mark(w)] + ([Publish(w)] + ([PollEnd(w)] + [])) == [Mark(w), Publish(w), PollEnd(w)];
  }

  lemma {:induction false} LeadsFurther(s: State, a: seq<Action>, s1: State, b: seq<Action>, s2: State)
    requires LeadsTo(s, a, s1) && LeadsTo(s1, b, s2)
    ensures LeadsTo(s, a + b, s2)
    decreases |a|
  {
    if a == [] {
      assert a + b == b;
    } else {
      LeadsFurther(Next(s, a[0]), a[1..], s1, b, s2);
      assert (a + b)[1..] == a[1..] + b;
    }
  }

  lemma CompletionPlan(s: State, w: Worker, id: Id) returns (more: seq<Action>, s': State)
    requires s.left.Keys == s.rows.Keys && w !in s.polls && IsPending(s.rows, id) && s.rows[id].reference.Some?
    ensures LeadsTo(s, more, s') && Announced(s, id, s') && s'.polls == s.polls
  {
    var s1 := AtPoll(s, w, Marking(id, []));
    PollReachesRow(s, w, id, s1);
    s' := MarkThenPublish(s1, w, id);
    more := [PollBegin(w, [id]), Fetch(w, true)] + [Mark(w), Publish(w), PollEnd(w)];
    LeadsFurther(s, [PollBegin(w, [id]), Fetch(w, true)], s1, [Mark(w), Publish(w), PollEnd(w)], s');
    assert s1.polls - {w} == s.polls;
  }

  /** From every reachable state, a pending row with a reference can be completed by any
      idle worker, which publishes it exactly once and is idle again. */
  lemma CompletionCanHappen(states: seq<State>, actions: seq<Action>, w: Worker, id: Id) returns (states': seq<State>, more: seq<Action>)
    requires IsRun(states, actions) && w !in Last(states).polls
    requires IsPending(Last(states).rows, id) && Last(states).rows[id].reference.Some?
    ensures IsRun(states', actions + more) && states <= states'
    ensures Announced(Last(states), id, Last(states')) && Last(states').polls == Last(states).polls
  {
    var s': State;
    RunKeepsInv(states, actions, |states| - 1);
    more, s' := CompletionPlan(Last(states), w, id);
    states' := RunGoesOn(states, actions, more, s');
  }
}
