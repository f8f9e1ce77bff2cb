/** Signing-key rotation (app/security/kms.py): callers of `sign_envelope` against
    one scheduler that swaps, drains and retires keys.

    Coroutines interleave only at `await`, so each action below is the code between
    two awaits.  The provider's key ids are fresh, and one scheduler runs at a time. */
module KeyRotation {
  import opened Results

  type KeyId = nat
  /** One id per in-flight `sign_envelope` call. */
  type CallId = nat

  datatype Handle = Handle(pending: int, active: bool)

  datatype RotationEvent = RotationEvent(oldKey: KeyId, newKey: Option<KeyId>, drained: int, success: bool)

  /** Where the scheduler is suspended. */
  datatype Phase =
    | NotStarted
    | Polling
    | Provisioning(prior: KeyId)
    | Draining(prior: KeyId, next: KeyId, initial: int)
    | Retiring(prior: KeyId, next: KeyId, initial: int, timedOut: bool)
    | Notifying
    | Stopped

  /** `drained` and `forced` record the keys handed to `retire_key` after a drain
      that reached zero and after one that timed out. */
  datatype State = State(
    handles: map<KeyId, Handle>,
    current: Option<KeyId>,
    calls: map<CallId, KeyId>,
    phase: Phase,
    drained: set<KeyId>,
    forced: set<KeyId>,
    history: seq<RotationEvent>)

  datatype Action =
    | Start(key: KeyId)
    | StartFails
    | SignBegin(call: CallId)
    | SignEnd(call: CallId)
    | BeginRotation
    | CutOver(key: KeyId, deadline: bool)
    | DrainPoll(deadline: bool)
    | Retired
    | RotationFails
    | Notified
    | Stop

  const INITIAL := State(map[], None, map[], NotStarted, {}, {}, [])

  function Max(a: int, b: int): int {
    if a > b then a else b
  }

  function WithPending(s: State, k: KeyId, pending: int): State
    requires k in s.handles
  {
    s.(handles := s.handles[k := s.handles[k].(pending := pending)])
  }

  function WithActive(s: State, k: KeyId, active: bool): State
    requires k in s.handles
  {
    s.(handles := s.handles[k := s.handles[k].(active := active)])
  }

  /** `_get_active_handle` would return a handle. */
  predicate CanSign(s: State) {
    s.current.Some? && s.current.value in s.handles && s.handles[s.current.value].active
  }

  /** The drain loop up to its next await: retire when nothing is pending, retire
      anyway past the deadline, else sleep. */
  function DrainStep(s: State, prior: KeyId, next: KeyId, initial: int, deadline: bool): State
    requires prior in s.handles
  {
    if s.handles[prior].pending == 0 then
      s.(phase := Retiring(prior, next, initial, false), drained := s.drained + {prior})
    else if deadline then
      s.(phase := Retiring(prior, next, initial, true), forced := s.forced + {prior})
    else
      s.(phase := Draining(prior, next, initial))
  }

  function Record(s: State, event: RotationEvent): State {
    s.(history := s.history + [event], phase := Notifying)
  }

  predicate Enabled(s: State, a: Action) {
    match a
    case Start(key) => s.phase.Stopped? || (s.phase.NotStarted? && (s.current.None? ==> key !in s.handles))
    case StartFails => s.phase.NotStarted?
    case SignBegin(call) => call !in s.calls
    case SignEnd(call) => call in s.calls && s.calls[call] in s.handles
    case BeginRotation => s.phase.Polling?
    case CutOver(key, _) => s.phase.Provisioning? && s.phase.prior in s.handles && key !in s.handles
    case DrainPoll(_) => s.phase.Draining? && s.phase.prior in s.handles
    case Retired => s.phase.Retiring?
    case RotationFails => (s.phase.Provisioning? || s.phase.Draining? || s.phase.Retiring?) && s.phase.prior in s.handles
    case Notified => s.phase.Notifying?
    case Stop => !s.phase.NotStarted?
  }

  function Next(s: State, a: Action): State
    requires Enabled(s, a)
  {
    match a
    case Start(key) =>
      if s.current.Some? then s.(phase := Polling)
      else s.(handles := s.handles[key := Handle(0, true)], current := Some(key), phase := Polling)
    case StartFails => s
    case SignBegin(call) =>
      if !CanSign(s) then s
      else
        var k := s.current.value;
        WithPending(s, k, s.handles[k].pending + 1).(calls := s.calls[call := k])
    case SignEnd(call) =>
      var k := s.calls[call];
      WithPending(s, k, Max(0, s.handles[k].pending - 1)).(calls := s.calls - {call})
    case BeginRotation =>
      if s.current.None? then s else s.(phase := Provisioning(s.current.value))
    case CutOver(key, deadline) =>
      var prior := s.phase.prior;
      var swapped := WithActive(s, prior, false);
      DrainStep(swapped.(handles := swapped.handles[key := Handle(0, true)], current := Some(key)),
        prior, key, s.handles[prior].pending, deadline)
    case DrainPoll(deadline) => DrainStep(s, s.phase.prior, s.phase.next, s.phase.initial, deadline)
    case Retired => Record(s, RotationEvent(s.phase.prior, Some(s.phase.next), s.phase.initial, true))
    case RotationFails =>
      var prior := s.phase.prior;
      Record(if s.current == Some(prior) then WithActive(s, prior, true) else s, RotationEvent(prior, None, 0, false))
    case Notified => s.(phase := Polling)
    case Stop => s.(phase := Stopped)
  }

  // ---------------------------------------------------------------------------
  // The handler as an object: one method per stretch between awaits.
  // ---------------------------------------------------------------------------

  class KeyRotationHandler {
    var handles: map<KeyId, Handle>
    var activeHandle: Option<KeyId>
    var calls: map<CallId, KeyId>
    var phase: Phase
    var rotationHistory: seq<RotationEvent>
    ghost var drained: set<KeyId>
    ghost var forced: set<KeyId>

    ghost function View(): State
      reads this
    {
      State(handles, activeHandle, calls, phase, drained, forced, rotationHistory)
    }

    constructor ()
      ensures View() == INITIAL && Inv(View())
    {
      handles, activeHandle, calls, phase, rotationHistory := map[], None, map[], NotStarted, [];
      drained, forced := {}, {};
    }

    /** From the first start on, signing is possible; the scheduler runs. */
    method Start(key: KeyId)
      requires Inv(View()) && Enabled(View(), Action.Start(key))
      modifies this
      ensures View() == Next(old(View()), Action.Start(key)) && Inv(View())
      ensures CanSign(View()) && phase.Polling?
      ensures activeHandle == if old(activeHandle).Some? then old(activeHandle) else Some(key)
    {
      StepKeepsInv(View(), Action.Start(key));
      if activeHandle.None? {
        handles := handles[key := Handle(0, true)];
        activeHandle := Some(key);
      }
      phase := Polling;
    }

    /** `sign_envelope` up to the provider call; false when it raises. */
    method SignBegin(call: CallId) returns (accepted: bool)
      requires Inv(View()) && Enabled(View(), Action.SignBegin(call))
      modifies this
      ensures View() == Next(old(View()), Action.SignBegin(call)) && Inv(View())
      ensures accepted <==> CanSign(old(View()))
      ensures accepted ==> call in calls && activeHandle == Some(calls[call]) == old(activeHandle)
      ensures !accepted ==> View() == old(View())
    {
      StepKeepsInv(View(), Action.SignBegin(call));
      if !(activeHandle.Some? && activeHandle.value in handles && handles[activeHandle.value].active) {
        return false;
      }
      var k := activeHandle.value;
      handles := handles[k := handles[k].(pending := handles[k].pending + 1)];
      calls := calls[call := k];
      return true;
    }

    /** The `finally` block, whether the provider signed or raised.  The clamp at zero
        never fires, and one holder of the call's key is gone. */
    method SignEnd(call: CallId)
      requires Inv(View()) && Enabled(View(), Action.SignEnd(call))
      modifies this
      ensures View() == Next(old(View()), Action.SignEnd(call)) && Inv(View())
      ensures var k := old(calls)[call];
        && k in handles && handles[k].pending == old(handles)[k].pending - 1
        && Holders(calls, k) == Holders(old(calls), k) - {call}
    {
      StepKeepsInv(View(), Action.SignEnd(call));
      EndCounts(calls, call);
      var k := calls[call];
      var less := handles[k].pending - 1;
      handles := handles[k := handles[k].(pending := if less > 0 then less else 0)];
      calls := calls - {call};
    }

    /** `_check_and_rotate` on a due key, up to `generate_key`: the key to replace is
        the one that calls still get. */
    method BeginRotation()
      requires Inv(View()) && Enabled(View(), Action.BeginRotation)
      modifies this
      ensures View() == Next(old(View()), Action.BeginRotation) && Inv(View())
      ensures phase.Provisioning? && activeHandle == Some(phase.prior) && CanSign(View())
    {
      StepKeepsInv(View(), Action.BeginRotation);
      if activeHandle.Some? {
        phase := Provisioning(activeHandle.value);
      }
    }

    method Drain(prior: KeyId, next: KeyId, initial: int, deadline: bool)
      requires prior in handles
      modifies `phase, `drained, `forced
      ensures View() == DrainStep(old(View()), prior, next, initial, deadline)
    {
      if handles[prior].pending == 0 {
        phase := Retiring(prior, next, initial, false);
        drained := drained + {prior};
      } else if deadline {
        phase := Retiring(prior, next, initial, true);
        forced := forced + {prior};
      } else {
        phase := Draining(prior, next, initial);
      }
    }

    /** `_rotate` once the new key exists: swap, then drain up to an await.  Calls get
        the new key from here on, and the old one is retired at once exactly when no
        call holds it or the deadline has passed. */
    method CutOver(key: KeyId, deadline: bool)
      requires Inv(View()) && Enabled(View(), Action.CutOver(key, deadline))
      modifies this
      ensures View() == Next(old(View()), Action.CutOver(key, deadline)) && Inv(View())
      ensures activeHandle == Some(key) && CanSign(View()) && calls == old(calls)
      ensures phase == Drained(calls, old(phase).prior, key, |Holders(calls, old(phase).prior)|, deadline)
    {
      ghost var before := View();
      StepKeepsInv(before, Action.CutOver(key, deadline));
      var prior := phase.prior;
      HeldExactlyWhenCounted(before, prior);
      handles := handles[prior := handles[prior].(active := false)][key := Handle(0, true)];
      activeHandle := Some(key);
      Drain(prior, key, handles[prior].pending, deadline);
    }

    method DrainPoll(deadline: bool)
      requires Inv(View()) && Enabled(View(), Action.DrainPoll(deadline))
      modifies this
      ensures View() == Next(old(View()), Action.DrainPoll(deadline)) && Inv(View())
      ensures CanSign(View()) && activeHandle == old(activeHandle) && calls == old(calls)
      ensures phase == Drained(calls, old(phase).prior, old(phase).next, old(phase).initial, deadline)
    {
      StepKeepsInv(View(), Action.DrainPoll(deadline));
      HeldExactlyWhenCounted(View(), phase.prior);
      Drain(phase.prior, phase.next, phase.initial, deadline);
    }

    /** The `except` block, from a failed provisioning, drain or retirement: calls keep
        getting the key they got before. */
    method RotationFails()
      requires Inv(View()) && Enabled(View(), Action.RotationFails)
      modifies this
      ensures View() == Next(old(View()), Action.RotationFails) && Inv(View())
      ensures CanSign(View()) && activeHandle == old(activeHandle) && calls == old(calls) && phase.Notifying?
      ensures rotationHistory == old(rotationHistory) + [RotationEvent(old(phase).prior, None, 0, false)]
    {
      StepKeepsInv(View(), Action.RotationFails);
      var prior := phase.prior;
      if activeHandle == Some(prior) {
        handles := handles[prior := handles[prior].(active := true)];
      }
      rotationHistory := rotationHistory + [RotationEvent(prior, None, 0, false)];
      phase := Notifying;
    }

    /** The event names the key that calls now get as the new one. */
    method Retired()
      requires Inv(View()) && Enabled(View(), Action.Retired)
      modifies this
      ensures View() == Next(old(View()), Action.Retired) && Inv(View())
      ensures CanSign(View()) && activeHandle == old(activeHandle) && calls == old(calls) && phase.Notifying?
      ensures rotationHistory == old(rotationHistory) + [RotationEvent(old(phase).prior, activeHandle, old(phase).initial, true)]
    {
      StepKeepsInv(View(), Action.Retired);
      rotationHistory := rotationHistory + [RotationEvent(phase.prior, Some(phase.next), phase.initial, true)];
      phase := Notifying;
    }

    /** The callback has returned or raised, and the scheduler sleeps again. */
    method Notified()
      requires Inv(View()) && Enabled(View(), Action.Notified)
      modifies this
      ensures View() == Next(old(View()), Action.Notified) && Inv(View())
      ensures phase.Polling? && CanSign(View()) && activeHandle == old(activeHandle) && calls == old(calls)
      ensures rotationHistory == old(rotationHistory)
    {
      StepKeepsInv(View(), Action.Notified);
      phase := Polling;
    }

    /** The scheduler task is cancelled at whatever await it is suspended in; calls go
        on as before. */
    method Stop()
      requires Inv(View()) && Enabled(View(), Action.Stop)
      modifies this
      ensures View() == Next(old(View()), Action.Stop) && Inv(View())
      ensures phase.Stopped? && CanSign(View()) && activeHandle == old(activeHandle) && calls == old(calls)
      ensures rotationHistory == old(rotationHistory)
    {
      StepKeepsInv(View(), Action.Stop);
      phase := Stopped;
    }
  }

  // ---------------------------------------------------------------------------
  // The invariant.
  // ---------------------------------------------------------------------------

  /** The in-flight calls that hold a key. */
  function Holders(calls: map<CallId, KeyId>, k: KeyId): set<CallId> {
    set c | c in calls && calls[c] == k
  }

  /** What a drain comes to, read off the calls: retire when none holds the key,
      retire anyway past the deadline, else wait. */
  function Drained(calls: map<CallId, KeyId>, prior: KeyId, next: KeyId, initial: int, deadline: bool): Phase {
    if Holders(calls, prior) == {} then Retiring(prior, next, initial, false)
    else if deadline then Retiring(prior, next, initial, true)
    else Draining(prior, next, initial)
  }

  ghost predicate Counted(s: State) {
    && (forall c :: c in s.calls ==> s.calls[c] in s.handles)
    && (forall k :: k in s.handles ==> s.handles[k].pending == |Holders(s.calls, k)|)
  }

  /** After start there is a current handle, and it alone is active. */
  ghost predicate CurrentIsActive(s: State) {
    && (s.current.None? ==> s.phase.NotStarted? && s.handles == map[])
    && (s.current.Some? ==> s.current.value in s.handles && s.handles[s.current.value].active && !s.phase.NotStarted?)
    && (forall k :: k in s.handles && s.handles[k].active ==> s.current == Some(k))
  }

  ghost predicate PhaseFits(s: State) {
    match s.phase
    case Provisioning(prior) => s.current == Some(prior)
    case Draining(prior, next, initial) =>
      s.current == Some(next) && prior != next && prior in s.handles && initial >= |Holders(s.calls, prior)|
    case Retiring(prior, next, initial, timedOut) =>
      s.current == Some(next) && prior != next && prior in s.handles && initial >= |Holders(s.calls, prior)|
      && (prior in if timedOut then s.forced else s.drained)
    case _ => true
  }

  /** Keys given up to `retire_key` are known and not current; those drained to
      zero are held by nobody. */
  ghost predicate RetiredAreDone(s: State) {
    && (forall k :: k in s.drained + s.forced ==> k in s.handles && s.current != Some(k))
    && (forall k :: k in s.drained ==> Holders(s.calls, k) == {})
  }

  /** No key is handed to `retire_key` twice, and none succeeds twice. */
  ghost predicate RetiredOnce(s: State) {
    && s.drained !! s.forced
    && (s.phase.Draining? ==> s.phase.prior !in s.drained + s.forced)
    && (forall i :: 0 <= i < |s.history| && s.history[i].success ==>
          s.history[i].oldKey in s.drained + s.forced && s.history[i].newKey.Some?)
    && (s.phase.Retiring? ==>
          forall i :: 0 <= i < |s.history| && s.history[i].success ==> s.history[i].oldKey != s.phase.prior)
    && (forall i, j :: 0 <= i < j < |s.history| && s.history[i].success && s.history[j].success ==>
          s.history[i].oldKey != s.history[j].oldKey)
  }

  ghost predicate Inv(s: State) {
    Counted(s) && CurrentIsActive(s) && PhaseFits(s) && RetiredAreDone(s) && RetiredOnce(s)
  }

  lemma BeginCounts(calls: map<CallId, KeyId>, call: CallId, k: KeyId)
    requires call !in calls
    ensures |Holders(calls[call := k], k)| == |Holders(calls, k)| + 1
    ensures forall j :: j != k ==> Holders(calls[call := k], j) == Holders(calls, j)
  {
    assert Holders(calls[call := k], k) == Holders(calls, k) + {call};
    forall j | j != k
      ensures Holders(calls[call := k], j) == Holders(calls, j)
    {
    }
  }

  lemma EndCounts(calls: map<CallId, KeyId>, call: CallId)
    requires call in calls
    ensures |Holders(calls, calls[call])| >= 1
    ensures |Holders(calls - {call}, calls[call])| == |Holders(calls, calls[call])| - 1
    ensures forall j :: j != calls[call] ==> Holders(calls - {call}, j) == Holders(calls, j)
  {
    var k := calls[call];
    assert call in Holders(calls, k);
    assert Holders(calls - {call}, k) == Holders(calls, k) - {call};
    forall j | j != k
      ensures Holders(calls - {call}, j) == Holders(calls, j)
    {
    }
  }

  lemma NobodyHoldsAFreshKey(s: State, k: KeyId)
    requires Counted(s) && k !in s.handles
    ensures Holders(s.calls, k) == {}
  {
  }

  lemma CountZeroIsNobody(s: State, k: KeyId)
    requires Counted(s) && k in s.handles && s.handles[k].pending == 0
    ensures Holders(s.calls, k) == {}
  {
  }

  lemma HeldExactlyWhenCounted(s: State, k: KeyId)
    requires Counted(s) && k in s.handles
    ensures s.handles[k].pending == |Holders(s.calls, k)|
    ensures s.handles[k].pending == 0 <==> Holders(s.calls, k) == {}
  {
  }

  lemma StepKeepsCurrent(s: State, a: Action)
    requires CurrentIsActive(s) && PhaseFits(s) && Enabled(s, a)
    ensures CurrentIsActive(Next(s, a))
  {
  }

  lemma SigningKeepsCounted(s: State, a: Action)
    requires Counted(s) && Enabled(s, a) && (a.SignBegin? || a.SignEnd?)
    ensures Counted(Next(s, a))
  {
    if a.SignEnd? {
      EndCounts(s.calls, a.call);
    } else if CanSign(s) {
      BeginCounts(s.calls, a.call, s.current.value);
    }
  }

  /** Only the rotation's own steps change which handles there are. */
  lemma RotatingKeepsCounted(s: State, a: Action)
    requires Counted(s) && CurrentIsActive(s) && Enabled(s, a) && (a.Start? || a.CutOver?)
    ensures Counted(Next(s, a))
  {
    if a.key !in s.handles {
      NobodyHoldsAFreshKey(s, a.key);
    }
  }

  lemma StepKeepsCounted(s: State, a: Action)
    requires Counted(s) && CurrentIsActive(s) && Enabled(s, a)
    ensures Counted(Next(s, a))
  {
    match a
    case SignBegin(_) => SigningKeepsCounted(s, a);
    case SignEnd(_) => SigningKeepsCounted(s, a);
    case Start(_) => RotatingKeepsCounted(s, a);
    case CutOver(_, _) => RotatingKeepsCounted(s, a);
    case _ =>
  }

  lemma StepKeepsRetired(s: State, a: Action)
    requires Inv(s) && Enabled(s, a)
    ensures RetiredAreDone(Next(s, a))
  {
    match a
    case SignBegin(call) =>
      if CanSign(s) {
        BeginCounts(s.calls, call, s.current.value);
      }
    case SignEnd(call) => EndCounts(s.calls, call);
    case CutOver(_, _) =>
      if s.handles[s.phase.prior].pending == 0 {
        CountZeroIsNobody(s, s.phase.prior);
      }
    case DrainPoll(_) =>
      if s.handles[s.phase.prior].pending == 0 {
        CountZeroIsNobody(s, s.phase.prior);
      }
    case _ =>
  }

  lemma StepKeepsPhase(s: State, a: Action)
    requires Inv(s) && Enabled(s, a)
    ensures PhaseFits(Next(s, a))
  {
    match a
    case SignBegin(call) =>
      if CanSign(s) {
        BeginCounts(s.calls, call, s.current.value);
      }
    case SignEnd(call) => EndCounts(s.calls, call);
    case _ =>
  }

  lemma StepKeepsRetiredOnce(s: State, a: Action)
    requires Inv(s) && Enabled(s, a)
    ensures RetiredOnce(Next(s, a))
  {
  }

  lemma StepKeepsInv(s: State, a: Action)
    requires Inv(s) && Enabled(s, a)
    ensures Inv(Next(s, a))
  {
    StepKeepsCounted(s, a);
    StepKeepsCurrent(s, a);
    StepKeepsRetired(s, a);
    StepKeepsPhase(s, a);
    StepKeepsRetiredOnce(s, a);
  }

  // ---------------------------------------------------------------------------
  // Every interleaving.
  // ---------------------------------------------------------------------------

  /** A run: the states an interleaving passes through. */
  ghost predicate IsRun(states: seq<State>, actions: seq<Action>) {
    && |states| == |actions| + 1
    && states[0] == INITIAL
    && forall i {:trigger actions[i]} :: 0 <= i < |actions| ==> Enabled(states[i], actions[i]) && states[i + 1] == Next(states[i], actions[i])
  }

  lemma {:induction false} RunKeepsInv(states: seq<State>, actions: seq<Action>, i: nat)
    requires IsRun(states, actions) && i < |states|
    ensures Inv(states[i])
  {
    if i > 0 {
      RunKeepsInv(states, actions, i - 1);
      StepKeepsInv(states[i - 1], actions[i - 1]);
    }
  }

  lemma StepKeepsRecords(s: State, a: Action)
    requires Enabled(s, a)
    ensures s.drained <= Next(s, a).drained && s.forced <= Next(s, a).forced && s.history <= Next(s, a).history
  {
  }

  lemma {:induction false} RetiredStaysRetired(states: seq<State>, actions: seq<Action>, i: nat, j: nat)
    requires IsRun(states, actions) && i <= j < |states|
    ensures states[i].drained <= states[j].drained && states[i].forced <= states[j].forced
    ensures states[i].history <= states[j].history
    decreases j
  {
    if i < j {
      RetiredStaysRetired(states, actions, i, j - 1);
      StepKeepsRecords(states[j - 1], actions[j - 1]);
    }
  }

  /** In every interleaving, a key retired after a drain that did not time out is
      held by no in-flight call from then on, and is never handed to a later one. */
  lemma DrainedKeyIsNeverUsed(states: seq<State>, actions: seq<Action>, i: nat, j: nat, k: KeyId)
    requires IsRun(states, actions) && i <= j < |states| && k in states[i].drained
    ensures forall c :: c in states[j].calls ==> states[j].calls[c] != k
    ensures states[j].current != Some(k) && k in states[j].handles && !states[j].handles[k].active
  {
    RunKeepsInv(states, actions, j);
    RetiredStaysRetired(states, actions, i, j);
    forall c | c in states[j].calls
      ensures states[j].calls[c] != k
    {
      assert c in Holders(states[j].calls, states[j].calls[c]);
    }
  }

  /** The pending counter is the number of in-flight calls in every reachable
      state, so the clamp at zero never fires. */
  lemma CounterIsExact(states: seq<State>, actions: seq<Action>, i: nat)
    requires IsRun(states, actions) && i < |states|
    ensures var s := states[i];
      && (forall k :: k in s.handles ==> s.handles[k].pending == |Holders(s.calls, k)|)
      && (forall c :: c in s.calls ==> s.calls[c] in s.handles && s.handles[s.calls[c]].pending >= 1)
  {
    RunKeepsInv(states, actions, i);
    forall c | c in states[i].calls
      ensures states[i].handles[states[i].calls[c]].pending >= 1
    {
      EndCounts(states[i].calls, c);
    }
  }

  /** After start, signing is accepted in every reachable state, whatever part of a
      rotation has failed: refusals happen exactly before the first start. */
  lemma SigningIsRefusedOnlyBeforeStart(states: seq<State>, actions: seq<Action>, i: nat)
    requires IsRun(states, actions) && i < |states|
    ensures CanSign(states[i]) <==> !states[i].phase.NotStarted?
  {
    RunKeepsInv(states, actions, i);
  }

  /** When a key goes to `retire_key`, calls still hold it exactly if the drain was
      cut short by its deadline. */
  lemma ForcedExactlyWhenHeld(states: seq<State>, actions: seq<Action>, i: nat)
    requires IsRun(states, actions) && i + 1 < |states|
    requires !states[i].phase.Retiring? && states[i + 1].phase.Retiring?
    ensures states[i + 1].phase.timedOut <==> Holders(states[i + 1].calls, states[i + 1].phase.prior) != {}
  {
    RunKeepsInv(states, actions, i);
    RunKeepsInv(states, actions, i + 1);
    var s := states[i + 1];
    assert s == Next(states[i], actions[i]);
    assert s.handles[s.phase.prior].pending == |Holders(s.calls, s.phase.prior)|;
  }

  /** Over a whole run no key is reported retired twice, and every report names a
      key that was handed to `retire_key`. */
  lemma EachKeyRetiresOnce(states: seq<State>, actions: seq<Action>, n: nat, i: nat, j: nat)
    requires IsRun(states, actions) && n < |states| && i < j < |states[n].history|
    requires states[n].history[i].success && states[n].history[j].success
    ensures states[n].history[i].oldKey != states[n].history[j].oldKey
    ensures states[n].history[i].oldKey in states[n].drained + states[n].forced
  {
    RunKeepsInv(states, actions, n);
  }

  /** Cut-over: the new key is current at once, and the count reported as drained is
      the number of calls that then held the old key.  That number never grows. */
  lemma CutOverCountsHolders(states: seq<State>, actions: seq<Action>, i: nat)
    requires IsRun(states, actions) && i < |actions| && actions[i].CutOver?
    ensures var prior, s := states[i].phase.prior, states[i + 1];
      && s.current == Some(actions[i].key) && actions[i].key != prior
      && (s.phase.Draining? || s.phase.Retiring?) && s.phase.prior == prior && s.phase.next == actions[i].key
      && s.phase.initial == |Holders(s.calls, prior)|
  {
    RunKeepsInv(states, actions, i);
  }

  lemma NoCallJoinsADrainingKey(states: seq<State>, actions: seq<Action>, i: nat)
    requires IsRun(states, actions) && i < |states| && (states[i].phase.Draining? || states[i].phase.Retiring?)
    ensures |Holders(states[i].calls, states[i].phase.prior)| <= states[i].phase.initial
  {
    RunKeepsInv(states, actions, i);
  }

  // ---------------------------------------------------------------------------
  // Rotations happen.
  // ---------------------------------------------------------------------------

  /** In every reachable state the scheduler's step depends on where it is suspended
      and on nothing else: no handle is ever missing. */
  lemma PhaseDecidesSteps(states: seq<State>, actions: seq<Action>, i: nat, deadline: bool, key: KeyId)
    requires IsRun(states, actions) && i < |states| && key !in states[i].handles
    ensures Enabled(states[i], Start(key)) <==> states[i].phase.NotStarted? || states[i].phase.Stopped?
    ensures Enabled(states[i], BeginRotation) <==> states[i].phase.Polling?
    ensures Enabled(states[i], CutOver(key, deadline)) <==> states[i].phase.Provisioning?
    ensures Enabled(states[i], DrainPoll(deadline)) <==> states[i].phase.Draining?
    ensures Enabled(states[i], Retired) <==> states[i].phase.Retiring?
    ensures Enabled(states[i], RotationFails) <==>
      states[i].phase.Provisioning? || states[i].phase.Draining? || states[i].phase.Retiring?
    ensures Enabled(states[i], Notified) <==> states[i].phase.Notifying?
    ensures Enabled(states[i], Stop) <==> !states[i].phase.NotStarted?
    ensures forall c :: Enabled(states[i], SignBegin(c)) <==> c !in states[i].calls
    ensures forall c :: Enabled(states[i], SignEnd(c)) <==> c in states[i].calls
  {
    RunKeepsInv(states, actions, i);
  }

  ghost function Last(states: seq<State>): State
    requires states != []
  {
    states[|states| - 1]
  }

  /** A run goes on by one step. */
  lemma OneStep(states: seq<State>, actions: seq<Action>, a: Action)
    requires IsRun(states, actions) && Enabled(Last(states), a)
    ensures IsRun(states + [Next(Last(states), a)], actions + [a])
  {
    var states', actions' := states + [Next(Last(states), a)], actions + [a];
    forall i | 0 <= i < |actions'|
      ensures Enabled(states'[i], actions'[i]) && states'[i + 1] == Next(states'[i], actions'[i])
    {
      if i < |actions| {
        assert actions'[i] == actions[i] && states'[i] == states[i] && states'[i + 1] == states[i + 1];
      }
    }
  }

  /** The actions can be taken one after the other and lead from one state to the other. */
  ghost predicate LeadsTo(s: State, more: seq<Action>, s': State)
    decreases |more|
  {
    if more == [] then s' == s else Enabled(s, more[0]) && LeadsTo(Next(s, more[0]), more[1..], s')
  }

  lemma LeadsOn(s: State, a: Action, rest: seq<Action>, s': State)
    requires Enabled(s, a) && LeadsTo(Next(s, a), rest, s')
    ensures LeadsTo(s, [a] + rest, s')
  {
    assert ([a] + rest)[1..] == rest;
  }

  lemma {:induction false} LeadsFurther(s: State, a: seq<Action>, s1: State, b: seq<Action>, s2: State)
    requires LeadsTo(s, a, s1) && LeadsTo(s1, b, s2)
    ensures LeadsTo(s, a + b, s2)
    decreases |a|
  {
    if a == [] {
      assert a + b == b;
    } else {
      LeadsFurther(Next(s, a[0]), a[1..], s1, b, s2);
      assert (a + b)[1..] == a[1..] + b;
    }
  }

  /** What can be done from a reachable state is a run. */
  lemma {:induction false} RunGoesOn(states: seq<State>, actions: seq<Action>, more: seq<Action>, s': State) returns (states': seq<State>)
    requires IsRun(states, actions) && LeadsTo(Last(states), more, s')
    ensures IsRun(states', actions + more) && states <= states' && Last(states') == s'
    decreases |more|
  {
    if more == [] {
      states' := states;
      assert actions + more == actions;
    } else {
      OneStep(states, actions, more[0]);
      states' := RunGoesOn(states + [Next(Last(states), more[0])], actions + [more[0]], more[1..], s');
      assert actions + [more[0]] + more[1..] == actions + more;
    }
  }

  /** Only calls have ended since a drain began. */
  ghost predicate StillDraining(from: State, s: State) {
    && s.phase == from.phase && s.current == from.current && s.drained == from.drained && s.history == from.history
  }

  lemma OneCallEnds(s: State, c: CallId)
    requires Inv(s) && s.phase.Draining? && c in Holders(s.calls, s.phase.prior)
    ensures Enabled(s, SignEnd(c)) && Inv(Next(s, SignEnd(c))) && StillDraining(s, Next(s, SignEnd(c)))
    ensures Holders(Next(s, SignEnd(c)).calls, s.phase.prior) == Holders(s.calls, s.phase.prior) - {c}
  {
    StepKeepsInv(s, SignEnd(c));
  }

  /** The calls on a draining key can all end. */
  lemma {:induction false} CallsCanEnd(s: State) returns (more: seq<Action>, s': State)
    requires Inv(s) && s.phase.Draining?
    ensures LeadsTo(s, more, s') && Inv(s') && StillDraining(s, s') && Holders(s'.calls, s'.phase.prior) == {}
    decreases |Holders(s.calls, s.phase.prior)|
  {
    var holders := Holders(s.calls, s.phase.prior);
    if holders == {} {
      more, s' := [], s;
    } else {
      var c :| c in holders;
      OneCallEnds(s, c);
      var rest;
      rest, s' := CallsCanEnd(Next(s, SignEnd(c)));
      more := [SignEnd(c)] + rest;
      LeadsOn(s, SignEnd(c), rest, s');
    }
  }

  /** Once nobody holds the old key, the drain ends without its deadline. */
  lemma QuietDrainEnds(s: State)
    requires Inv(s) && s.phase.Draining? && Holders(s.calls, s.phase.prior) == {}
    ensures Enabled(s, DrainPoll(false)) && Inv(Next(s, DrainPoll(false)))
    ensures var p, s' := s.phase, Next(s, DrainPoll(false));
      && s'.phase == Retiring(p.prior, p.next, p.initial, false) && s'.current == s.current
      && s'.drained == s.drained + {p.prior} && s'.history == s.history
  {
    HeldExactlyWhenCounted(s, s.phase.prior);
    StepKeepsInv(s, DrainPoll(false));
  }

  /** A drain can reach zero, and the key is then on its way to retirement. */
  lemma DrainCanEnd(s: State) returns (more: seq<Action>, s': State)
    requires Inv(s) && s.phase.Draining?
    ensures LeadsTo(s, more, s') && Inv(s')
    ensures s'.phase == Retiring(s.phase.prior, s.phase.next, s.phase.initial, false) && s'.current == s.current
    ensures s'.drained == s.drained + {s.phase.prior} && s'.history == s.history
  {
    var ends, quiet := CallsCanEnd(s);
    QuietDrainEnds(quiet);
    s' := Next(quiet, DrainPoll(false));
    more := ends + [DrainPoll(false)];
    assert LeadsTo(s', [], s');
    LeadsOn(quiet, DrainPoll(false), [], s');
    assert [DrainPoll(false)] + [] == [DrainPoll(false)];
    LeadsFurther(s, ends, quiet, [DrainPoll(false)], s');
  }

  /** The swap: the new key is current, and the old one drains or has no holder. */
  lemma SwapSteps(s: State, key: KeyId)
    requires Inv(s) && s.phase.Polling? && key !in s.handles
    ensures s.current.Some? && Enabled(s, BeginRotation) && Enabled(Next(s, BeginRotation), CutOver(key, false))
    ensures var prior, s' := s.current.value, Next(Next(s, BeginRotation), CutOver(key, false));
      && Inv(s') && s'.current == Some(key) && s'.history == s.history
      && s'.phase == Drained(s.calls, prior, key, |Holders(s.calls, prior)|, false)
      && s'.drained == s.drained + (if Holders(s.calls, prior) == {} then {prior} else {})
  {
    var s1 := Next(s, BeginRotation);
    StepKeepsInv(s, BeginRotation);
    HeldExactlyWhenCounted(s1, s1.phase.prior);
    StepKeepsInv(s1, CutOver(key, false));
  }

  lemma SwapPlan(s: State, key: KeyId)
    requires Inv(s) && s.phase.Polling? && key !in s.handles
    ensures Enabled(s, BeginRotation) && Enabled(Next(s, BeginRotation), CutOver(key, false))
    ensures LeadsTo(s, [BeginRotation, CutOver(key, false)], Next(Next(s, BeginRotation), CutOver(key, false)))
  {
    SwapSteps(s, key);
    var s1 := Next(s, BeginRotation);
    var s2 := Next(s1, CutOver(key, false));
    assert LeadsTo(s2, [], s2);
    LeadsOn(s1, CutOver(key, false), [], s2);
    LeadsOn(s, BeginRotation, [CutOver(key, false)] + [], s2);
    assert [BeginRotation] + ([CutOver(key, false)] + []) == [BeginRotation, CutOver(key, false)];
  }

  /** From a polling scheduler, a fresh key can be cut over to and the old one drained. */
  lemma CanReachRetirement(s: State, key: KeyId) returns (more: seq<Action>, s': State)
    requires Inv(s) && s.phase.Polling? && key !in s.handles
    ensures LeadsTo(s, more, s') && Inv(s') && s.current.Some?
    ensures s'.phase == Retiring(s.current.value, key, |Holders(s.calls, s.current.value)|, false) && s'.current == Some(key)
    ensures s'.drained == s.drained + {s.current.value} && s'.history == s.history
  {
    SwapSteps(s, key);
    SwapPlan(s, key);
    more, s' := [BeginRotation, CutOver(key, false)], Next(Next(s, BeginRotation), CutOver(key, false));
    if s'.phase.Draining? {
      var swapped := s';
      var rest;
      rest, s' := DrainCanEnd(swapped);
      LeadsFurther(s, more, swapped, rest, s');
      more := more + rest;
    }
  }

  lemma RetireAndReport(s: State)
    requires s.phase.Retiring?
    ensures Enabled(s, Retired) && Enabled(Next(s, Retired), Notified)
    ensures LeadsTo(s, [Retired, Notified], Next(Next(s, Retired), Notified))
  {
    var s1 := Next(s, Retired);
    var s2 := Next(s1, Notified);
    assert LeadsTo(s2, [], s2);
    LeadsOn(s1, Notified, [], s2);
    LeadsOn(s, Retired, [Notified] + [], s2);
    assert [Retired] + ([Notified] + []) == [Retired, Notified];
  }

  /** From every reachable state in which the scheduler polls, and for every fresh key,
      there is a run that cuts over to it, drains and retires the old key, reports one
      success and polls again. */
  lemma RotationCanComplete(states: seq<State>, actions: seq<Action>, key: KeyId) returns (states': seq<State>, more: seq<Action>)
    requires IsRun(states, actions) && Last(states).phase.Polling? && key !in Last(states).handles
    ensures IsRun(states', actions + more) && states <= states' && Last(states).current.Some?
    ensures var s0, s := Last(states), Last(states');
      && s.phase.Polling? && s.current == Some(key) && CanSign(s)
      && s.drained == s0.drained + {s0.current.value}
      && s.history == s0.history
           + [RotationEvent(s0.current.value, Some(key), |Holders(s0.calls, s0.current.value)|, true)]
  {
    var s0 := Last(states);
    RunKeepsInv(states, actions, |states| - 1);
    var first, s1 := CanReachRetirement(s0, key);
    RetireAndReport(s1);
    var s2 := Next(Next(s1, Retired), Notified);
    LeadsFurther(s0, first, s1, [Retired, Notified], s2);
    more := first + [Retired, Notified];
    states' := RunGoesOn(states, actions, more, s2);
  }

  /** A stopped scheduler, or one that never ran, can be started and then polls. */
  lemma StartLeadsToPolling(states: seq<State>, actions: seq<Action>, key: KeyId)
    requires IsRun(states, actions) && key !in Last(states).handles
    requires Last(states).phase.NotStarted? || Last(states).phase.Stopped?
    ensures Enabled(Last(states), Start(key))
    ensures IsRun(states + [Next(Last(states), Start(key))], actions + [Start(key)])
    ensures Next(Last(states), Start(key)).phase.Polling? && CanSign(Next(Last(states), Start(key)))
  {
    RunKeepsInv(states, actions, |states| - 1);
    OneStep(states, actions, Start(key));
    StepKeepsInv(Last(states), Start(key));
  }
}
