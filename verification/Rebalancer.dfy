/** Planning and executing a capital rebalance (app/services/capital_rebalancer.py),
    in exact arithmetic.  The optimizer's target weights are a parameter. */
module Rebalancer {
  import opened Results
  import opened Sorting
  import opened Sums
  import opened Names

  type Weights = map<string, real>

  const DUST: real := 0.0001

  datatype Strategy = Strategy(id: string, vault: Option<string>, risk: real)

  datatype Direction = Increase | Decrease

  datatype Instruction = Instruction(
    strategy: string,
    vault: Option<string>,
    risk: Option<real>,
    direction: Direction,
    deltaWeight: real,
    deltaAmount: real,
    amount: real,
    currentWeight: real,
    targetWeight: real,
    step: nat)

  function Weight(w: Weights, id: string): real {
    if id in w then w[id] else 0.0
  }

  function Delta(current: Weights, target: Weights, id: string): real {
    Weight(target, id) - Weight(current, id)
  }

  function Abs(x: real): real {
    if x < 0.0 then -x else x
  }

  predicate Skipped(current: Weights, target: Weights, id: string) {
    Abs(Delta(current, target, id)) <= DUST
  }

  /** The last strategy listed under an id, as a dictionary keeps it. */
  function Lookup(strategies: seq<Strategy>, id: string): Option<Strategy> {
    if strategies == [] then None
    else if strategies[|strategies| - 1].id == id then Some(strategies[|strategies| - 1])
    else Lookup(strategies[..|strategies| - 1], id)
  }

  /** The request a plan answers. */
  datatype Request = Request(strategies: seq<Strategy>, current: Weights, target: Weights, total: real)

  function Draft(r: Request, id: string): Instruction {
    var delta := Delta(r.current, r.target, id);
    var amount := delta * r.total;
    var found := Lookup(r.strategies, id);
    Instruction(id, if found.Some? then found.value.vault else None, if found.Some? then Some(found.value.risk) else None,
      if amount > 0.0 then Increase else Decrease,
      delta, amount, Abs(amount), Weight(r.current, id), Weight(r.target, id), 0)
  }

  function Drafts(r: Request, ids: seq<string>): seq<Instruction> {
    if ids == [] then []
    else
      var last := |ids| - 1;
      Drafts(r, ids[..last]) + (if Skipped(r.current, r.target, ids[last]) then [] else [Draft(r, ids[last])])
  }

  /** Withdrawals before deposits, then by strategy. */
  predicate LegLe(a: Instruction, b: Instruction) {
    || (a.direction.Decrease? && b.direction.Increase?)
    || (a.direction == b.direction && Le(a.strategy, b.strategy))
  }

  function ByLeg(): (Instruction, Instruction) -> bool {
    (a, b) => LegLe(a, b)
  }

  function Numbered(s: seq<Instruction>): (r: seq<Instruction>)
    ensures |r| == |s| && forall i :: 0 <= i < |s| ==> r[i] == s[i].(step := i + 1)
  {
    seq(|s|, i requires 0 <= i < |s| => s[i].(step := i + 1))
  }

  /** The plan for a request whose strategy ids are listed in order. */
  function Plan(r: Request, ids: seq<string>): seq<Instruction> {
    Numbered(StableSort(Drafts(r, ids), ByLeg()))
  }

  method BuildRebalancingInstructions(r: Request) returns (plan: seq<Instruction>)
    ensures plan == Plan(r, InOrder(AllIds(r)))
  {
    var order := SortedNames(r.current.Keys + r.target.Keys);
    SortedListIsUnique(order, InOrder(AllIds(r)), AllIds(r));
    var instructions := DraftAll(r, order);
    plan := AssignSteps(StableSort(instructions, ByLeg()));
  }

  /** The loop over the strategies: one instruction each, dust left out. */
  method DraftAll(r: Request, order: seq<string>) returns (instructions: seq<Instruction>)
    ensures instructions == Drafts(r, order)
  {
    instructions := [];
    for i := 0 to |order|
      invariant instructions == Drafts(r, order[..i])
    {
      assert order[..i + 1][..i] == order[..i];
      if Skipped(r.current, r.target, order[i]) {
        continue;
      }
      instructions := instructions + [Draft(r, order[i])];
    }
    assert order[..|order|] == order;
  }

  method AssignSteps(sorted: seq<Instruction>) returns (plan: seq<Instruction>)
    ensures plan == Numbered(sorted)
  {
    plan := sorted;
    for i := 0 to |sorted|
      invariant |plan| == |sorted|
      invariant forall j :: 0 <= j < i ==> plan[j] == sorted[j].(step := j + 1)
      invariant forall j :: i <= j < |sorted| ==> plan[j] == sorted[j]
    {
      plan := plan[i := plan[i].(step := i + 1)];
    }
  }

  // ---------------------------------------------------------------------------
  // A plan is its withdrawals, in order, and then its deposits, in order.
  // ---------------------------------------------------------------------------

  predicate Moves(r: Request, id: string, direction: Direction) {
    !Skipped(r.current, r.target, id) && Draft(r, id).direction == direction
  }

  function Legs(r: Request, ids: seq<string>, direction: Direction): seq<Instruction> {
    if ids == [] then []
    else
      var last := |ids| - 1;
      Legs(r, ids[..last], direction) + (if Moves(r, ids[last], direction) then [Draft(r, ids[last])] else [])
  }

  lemma {:induction false} LegsAreDrafts(r: Request, ids: seq<string>, direction: Direction)
    ensures forall x :: x in Legs(r, ids, direction) ==>
      x.strategy in ids && x == Draft(r, x.strategy) && Moves(r, x.strategy, direction)
  {
    if ids != [] {
      LegsAreDrafts(r, ids[..|ids| - 1], direction);
    }
  }

  lemma {:induction false} EveryMoveHasALeg(r: Request, ids: seq<string>, direction: Direction, id: string)
    requires id in ids && Moves(r, id, direction)
    ensures Draft(r, id) in Legs(r, ids, direction)
  {
    var last := |ids| - 1;
    if id != ids[last] {
      EveryMoveHasALeg(r, ids[..last], direction, id);
    }
  }

  lemma {:induction false} LegsAreSorted(r: Request, ids: seq<string>, direction: Direction)
    requires Sorted(ids, ByName()) && Distinct(ids)
    ensures Sorted(Legs(r, ids, direction), ByLeg())
    ensures forall i, j :: 0 <= i < j < |Legs(r, ids, direction)| ==>
      Legs(r, ids, direction)[i].strategy != Legs(r, ids, direction)[j].strategy
  {
    if ids != [] {
      var last := |ids| - 1;
      LegsAreSorted(r, ids[..last], direction);
      LegsAreDrafts(r, ids[..last], direction);
      var before := Legs(r, ids[..last], direction);
      forall i | 0 <= i < |before|
        ensures Le(before[i].strategy, ids[last]) && before[i].strategy != ids[last] && before[i].direction == direction
      {
        assert before[i] in before;
        var k :| 0 <= k < last && ids[k] == before[i].strategy;
        assert ByName()(ids[k], ids[last]);
      }
    }
  }

  lemma {:induction false} DraftsAreLegs(r: Request, ids: seq<string>)
    ensures multiset(Drafts(r, ids)) == multiset(Legs(r, ids, Decrease) + Legs(r, ids, Increase))
  {
    if ids != [] {
      DraftsAreLegs(r, ids[..|ids| - 1]);
    }
  }

  lemma PlanIsLegs(r: Request, ids: seq<string>)
    requires Sorted(ids, ByName()) && Distinct(ids)
    ensures Plan(r, ids) == Numbered(Legs(r, ids, Decrease) + Legs(r, ids, Increase))
  {
    var drafts := Drafts(r, ids);
    var down, up := Legs(r, ids, Decrease), Legs(r, ids, Increase);
    LegsAreSorted(r, ids, Decrease);
    LegsAreSorted(r, ids, Increase);
    LegsAreDrafts(r, ids, Decrease);
    LegsAreDrafts(r, ids, Increase);
    LegOrderIsTotal();
    SortIsSorted(drafts, ByLeg());
    SortIsPermutation(drafts, ByLeg());
    DraftsAreLegs(r, ids);
    SidesAreSorted(down, up);
    TiedLegsAreEqual(r, ids);
    SortedIsUnique(down + up, StableSort(drafts, ByLeg()), ByLeg());
  }

  lemma SidesAreSorted(down: seq<Instruction>, up: seq<Instruction>)
    requires Sorted(down, ByLeg()) && Sorted(up, ByLeg())
    requires forall x :: x in down ==> x.direction.Decrease?
    requires forall x :: x in up ==> x.direction.Increase?
    ensures Sorted(down + up, ByLeg())
  {
    var all := down + up;
    forall i, j | 0 <= i < j < |all|
      ensures ByLeg()(all[i], all[j])
    {
      if i < |down| <= j {
        assert all[i] in down && all[j] in up;
      } else if j < |down| {
        assert ByLeg()(down[i], down[j]);
      } else {
        assert ByLeg()(up[i - |down|], up[j - |down|]);
      }
    }
  }

  lemma TiedLegsAreEqual(r: Request, ids: seq<string>)
    ensures TiesAreEqual(Legs(r, ids, Decrease) + Legs(r, ids, Increase), ByLeg())
  {
    LegsAreDrafts(r, ids, Decrease);
    LegsAreDrafts(r, ids, Increase);
    ByNameIsOrder();
  }

  lemma LegOrderIsTotal()
    ensures TotalPreorder(ByLeg())
  {
    forall a: Instruction, b: Instruction
      ensures ByLeg()(a, b) || ByLeg()(b, a)
    {
      LeIsTotal(a.strategy, b.strategy);
    }
    forall a: Instruction, b: Instruction, c: Instruction | ByLeg()(a, b) && ByLeg()(b, c)
      ensures ByLeg()(a, c)
    {
      if a.direction == b.direction == c.direction {
        LeIsTransitive(a.strategy, b.strategy, c.strategy);
      }
    }
  }

  // ---------------------------------------------------------------------------
  // Cash: what has been withdrawn minus what has been deposited.
  // ---------------------------------------------------------------------------

  function Flow(i: Instruction): real {
    if i.direction.Decrease? then i.amount else -i.amount
  }

  function Cash(s: seq<Instruction>): real {
    if s == [] then 0.0 else Cash(s[..|s| - 1]) + Flow(s[|s| - 1])
  }

  lemma {:induction false} CashAdds(a: seq<Instruction>, b: seq<Instruction>)
    ensures Cash(a + b) == Cash(a) + Cash(b)
  {
    if b == [] {
      assert a + b == a;
    } else {
      CashAdds(a, b[..|b| - 1]);
      assert (a + b)[..|a + b| - 1] == a + b[..|b| - 1];
    }
  }

  lemma {:induction false} CashIgnoresSteps(s: seq<Instruction>, n: nat)
    requires n <= |s|
    ensures Cash(Numbered(s)[..n]) == Cash(s[..n])
  {
    if n > 0 {
      CashIgnoresSteps(s, n - 1);
      assert Numbered(s)[..n][..n - 1] == Numbered(s)[..n - 1];
      assert s[..n][..n - 1] == s[..n - 1];
    }
  }

  lemma {:induction false} CashOfInflows(s: seq<Instruction>)
    requires forall x :: x in s ==> Flow(x) >= 0.0
    ensures Cash(s) >= 0.0
  {
    if s != [] {
      CashOfInflows(s[..|s| - 1]);
      assert s[|s| - 1] in s;
    }
  }

  lemma {:induction false} CashOfOutflows(s: seq<Instruction>, n: nat)
    requires n <= |s| && forall x :: x in s ==> Flow(x) <= 0.0
    ensures Cash(s[..n]) >= Cash(s)
  {
    if n < |s| {
      assert s[..|s| - 1][..n] == s[..n];
      CashOfOutflows(s[..|s| - 1], n);
      assert s[|s| - 1] in s;
    } else {
      assert s[..n] == s;
    }
  }

  function DeltaOf(r: Request): string -> real {
    id => Delta(r.current, r.target, id)
  }

  /** The cash that bringing a strategy to its target releases. */
  function Release(r: Request, id: string): real {
    -(Delta(r.current, r.target, id) * r.total)
  }

  function ReleaseOf(r: Request): string -> real {
    id => Release(r, id)
  }

  /** The strategies that the plan moves. */
  function Moved(r: Request, all: set<string>): set<string> {
    set id | id in all && !Skipped(r.current, r.target, id)
  }

  /** The strategies whose weight is off target by a skipped amount. */
  function Dusty(r: Request, all: set<string>): set<string> {
    set id | id in all && Skipped(r.current, r.target, id) && Delta(r.current, r.target, id) != 0.0
  }

  lemma DraftFlow(r: Request, id: string)
    requires r.total > 0.0
    ensures Flow(Draft(r, id)) == Release(r, id)
    ensures Draft(r, id).direction.Decrease? ==> Release(r, id) >= 0.0
    ensures Draft(r, id).direction.Increase? ==> Release(r, id) <= 0.0
  {
  }

  lemma LegsCash(r: Request, ids: seq<string>, direction: Direction)
    requires ids != [] && r.total > 0.0
    ensures var last := |ids| - 1;
      Cash(Legs(r, ids, direction)) == Cash(Legs(r, ids[..last], direction))
        + (if Moves(r, ids[last], direction) then Release(r, ids[last]) else 0.0)
  {
    var last := |ids| - 1;
    DraftFlow(r, ids[last]);
    CashAdds(Legs(r, ids[..last], direction), if Moves(r, ids[last], direction) then [Draft(r, ids[last])] else []);
    assert Cash([Draft(r, ids[last])]) == Flow(Draft(r, ids[last]));
  }

  lemma MovedOneMore(r: Request, ids: seq<string>)
    requires ids != [] && Distinct(ids)
    ensures var last := |ids| - 1;
      SumOver(Moved(r, Elements(ids)), ReleaseOf(r)) == SumOver(Moved(r, Elements(ids[..last])), ReleaseOf(r))
        + (if Skipped(r.current, r.target, ids[last]) then 0.0 else Release(r, ids[last]))
  {
    var last := |ids| - 1;
    var id, moved, moved' := ids[last], Moved(r, Elements(ids[..last])), Moved(r, Elements(ids));
    if Skipped(r.current, r.target, id) {
      assert moved' == moved;
    } else {
      assert id in moved' && moved' - {id} == moved;
      SumRemove(moved', ReleaseOf(r), id);
    }
  }

  /** All legs together release what their strategies release. */
  lemma {:induction false} CashOfLegs(r: Request, ids: seq<string>)
    requires r.total > 0.0 && Distinct(ids)
    ensures Cash(Legs(r, ids, Decrease)) + Cash(Legs(r, ids, Increase)) == SumOver(Moved(r, Elements(ids)), ReleaseOf(r))
  {
    if ids == [] {
      assert Moved(r, Elements(ids)) == {};
    } else {
      CashOfLegs(r, ids[..|ids| - 1]);
      LegsCash(r, ids, Decrease);
      LegsCash(r, ids, Increase);
      MovedOneMore(r, ids);
    }
  }

  lemma LegFlows(r: Request, ids: seq<string>)
    requires r.total > 0.0
    ensures forall x :: x in Legs(r, ids, Decrease) ==> Flow(x) >= 0.0
    ensures forall x :: x in Legs(r, ids, Increase) ==> Flow(x) <= 0.0
  {
    LegsAreDrafts(r, ids, Decrease);
    LegsAreDrafts(r, ids, Increase);
    forall id: string
      ensures Draft(r, id).direction.Decrease? ==> Flow(Draft(r, id)) >= 0.0
      ensures Draft(r, id).direction.Increase? ==> Flow(Draft(r, id)) <= 0.0
    {
      DraftFlow(r, id);
    }
  }

  lemma InflowsThenOutflows(down: seq<Instruction>, up: seq<Instruction>, n: nat)
    requires n <= |down| + |up|
    requires forall x :: x in down ==> Flow(x) >= 0.0
    requires forall x :: x in up ==> Flow(x) <= 0.0
    ensures Cash((down + up)[..n]) >= 0.0 || Cash((down + up)[..n]) >= Cash(down) + Cash(up)
  {
    if n <= |down| {
      assert (down + up)[..n] == down[..n];
      CashOfInflows(down[..n]);
    } else {
      assert (down + up)[..n] == down + up[..n - |down|];
      CashAdds(down, up[..n - |down|]);
      CashOfOutflows(up, n - |down|);
    }
  }

  function AllIds(r: Request): set<string> {
    r.current.Keys + r.target.Keys
  }

  /** Cash once a whole plan has run. */
  ghost function CashAtEnd(r: Request): real {
    SumOver(Moved(r, AllIds(r)), ReleaseOf(r))
  }

  /** Cash is lowest at the start or at the end of a plan. */
  lemma CashIsLowestAtTheEnds(r: Request, ids: seq<string>, n: nat)
    requires r.total > 0.0 && ListsSet(ids, AllIds(r)) && n <= |Plan(r, ids)|
    ensures Cash(Plan(r, ids)[..n]) >= 0.0 || Cash(Plan(r, ids)[..n]) >= CashAtEnd(r)
    ensures Cash(Plan(r, ids)) == CashAtEnd(r)
  {
    PlanIsLegs(r, ids);
    var down, up := Legs(r, ids, Decrease), Legs(r, ids, Increase);
    var all := down + up;
    CashIgnoresSteps(all, n);
    CashIgnoresSteps(all, |all|);
    assert all[..|all|] == all && Numbered(all)[..|all|] == Numbered(all);
    CashAdds(down, up);
    CashOfLegs(r, ids);
    LegFlows(r, ids);
    InflowsThenOutflows(down, up, n);
  }

  function WeightOf(w: Weights): string -> real {
    id => Weight(w, id)
  }

  ghost function TotalWeight(w: Weights): real {
    SumOver(w.Keys, WeightOf(w))
  }

  lemma TotalOverMore(w: Weights, all: set<string>)
    requires w.Keys <= all
    ensures SumOver(all, WeightOf(w)) == TotalWeight(w)
  {
    var rest := all - w.Keys;
    assert all == w.Keys + rest;
    SumUnion(w.Keys, rest, WeightOf(w));
    SumOfZeros(rest, WeightOf(w));
  }

  lemma ReleaseIsScaledDelta(r: Request, id: string)
    ensures Release(r, id) == Times(-r.total, Delta(r.current, r.target, id))
  {
  }

  /** A set of strategies releases total capital times the weight it loses. */
  lemma ReleaseScales(r: Request, s: set<string>)
    ensures SumOver(s, ReleaseOf(r)) == Times(-r.total, SumOver(s, DeltaOf(r)))
  {
    forall id | id in s
      ensures ReleaseOf(r)(id) == Times(-r.total, DeltaOf(r)(id))
    {
      ReleaseIsScaledDelta(r, id);
    }
    SumScale(s, DeltaOf(r), ReleaseOf(r), -r.total);
  }

  lemma DeltaOfAll(r: Request)
    ensures SumOver(AllIds(r), DeltaOf(r)) == TotalWeight(r.target) - TotalWeight(r.current)
  {
    TotalOverMore(r.current, AllIds(r));
    TotalOverMore(r.target, AllIds(r));
    SumDifference(AllIds(r), WeightOf(r.target), WeightOf(r.current), DeltaOf(r));
  }

  lemma MovedDustyAndStill(r: Request, all: set<string>)
    ensures SumOver(all, ReleaseOf(r)) == SumOver(Moved(r, all), ReleaseOf(r)) + SumOver(Dusty(r, all), ReleaseOf(r))
  {
    var moved, dusty := Moved(r, all), Dusty(r, all);
    var still := all - moved - dusty;
    assert all == (moved + dusty) + still;
    SumUnion(moved + dusty, still, ReleaseOf(r));
    SumUnion(moved, dusty, ReleaseOf(r));
    SumOfZeros(still, ReleaseOf(r));
  }

  /** The dust threshold in money, once for every strategy left off target. */
  ghost function DustBound(r: Request): real {
    Times(Times(DUST, r.total), |Dusty(r, AllIds(r))| as real)
  }

  lemma DustIsSmall(r: Request)
    requires r.total > 0.0
    ensures SumOver(Dusty(r, AllIds(r)), ReleaseOf(r)) <= DustBound(r)
    ensures DustBound(r) >= 0.0
  {
    forall id | id in Dusty(r, AllIds(r))
      ensures ReleaseOf(r)(id) <= Times(DUST, r.total)
    {
      OneDust(r.total, Delta(r.current, r.target, id));
    }
    SumAtMost(Dusty(r, AllIds(r)), ReleaseOf(r), Times(DUST, r.total));
  }

  lemma OneDust(total: real, delta: real)
    requires total > 0.0 && delta >= -DUST
    ensures -(delta * total) <= Times(DUST, total)
  {
    assert (delta + DUST) * total >= 0.0;
  }

  lemma AllReleaseSomething(r: Request)
    requires r.total > 0.0 && TotalWeight(r.target) <= TotalWeight(r.current)
    ensures SumOver(AllIds(r), ReleaseOf(r)) >= 0.0
  {
    DeltaOfAll(r);
    ReleaseScales(r, AllIds(r));
    SignOfProduct(r.total, SumOver(AllIds(r), DeltaOf(r)));
  }

  lemma SignOfProduct(total: real, moved: real)
    requires total > 0.0
    ensures Times(-total, moved) >= 0.0 <==> moved <= 0.0
  {
  }

  /** With target weights summing to no more than current ones, cash never falls
      below minus the dust left behind, and never below zero without dust. */
  lemma CashFloor(r: Request, ids: seq<string>, n: nat)
    requires r.total > 0.0 && ListsSet(ids, AllIds(r)) && n <= |Plan(r, ids)|
    requires TotalWeight(r.target) <= TotalWeight(r.current)
    ensures Cash(Plan(r, ids)[..n]) >= -DustBound(r)
    ensures Dusty(r, AllIds(r)) == {} ==> Cash(Plan(r, ids)[..n]) >= 0.0
  {
    CashIsLowestAtTheEnds(r, ids, n);
    AllReleaseSomething(r);
    MovedDustyAndStill(r, AllIds(r));
    DustIsSmall(r);
  }

  lemma NeverShortIffCashAtEnd(r: Request, ids: seq<string>)
    requires r.total > 0.0 && ListsSet(ids, AllIds(r))
    ensures (forall n :: 0 <= n <= |Plan(r, ids)| ==> Cash(Plan(r, ids)[..n]) >= 0.0) <==> CashAtEnd(r) >= 0.0
  {
    var plan := Plan(r, ids);
    forall n | 0 <= n <= |plan|
      ensures CashAtEnd(r) >= 0.0 ==> Cash(plan[..n]) >= 0.0
    {
      CashIsLowestAtTheEnds(r, ids, n);
    }
    CashIsLowestAtTheEnds(r, ids, |plan|);
    assert plan[..|plan|] == plan;
  }

  /** Exactly when no prefix of a plan runs short of cash: the strategies above the
      dust threshold do not gain weight in total. */
  lemma NeverShortExactly(r: Request, ids: seq<string>)
    requires r.total > 0.0 && ListsSet(ids, AllIds(r))
    ensures (forall n :: 0 <= n <= |Plan(r, ids)| ==> Cash(Plan(r, ids)[..n]) >= 0.0)
       <==> SumOver(Moved(r, AllIds(r)), DeltaOf(r)) <= 0.0
  {
    NeverShortIffCashAtEnd(r, ids);
    ReleaseScales(r, Moved(r, AllIds(r)));
    SignOfProduct(r.total, SumOver(Moved(r, AllIds(r)), DeltaOf(r)));
  }

  /** The planner's comment promises that withdrawing first avoids a shortfall.  It
      does not when several withdrawals are dust and a deposit is not: here the
      weights balance, and the plan is a single unfunded deposit. */
  const SHORT_REQUEST := Request([],
    map["a" := 0.5, "b" := 0.25, "c" := 0.25],
    map["a" := 0.50015, "b" := 0.2499, "c" := 0.24995],
    1.0)

  lemma ThreeTerms(f: string -> real)
    ensures SumOver({"a", "b", "c"}, f) == f("a") + f("b") + f("c")
  {
    SumRemove({"a", "b", "c"}, f, "a");
    assert {"a", "b", "c"} - {"a"} == {"b", "c"};
    SumRemove({"b", "c"}, f, "b");
    assert {"b", "c"} - {"b"} == {"c"};
    SumRemove({"c"}, f, "c");
    assert {"c"} - {"c"} == {};
  }

  lemma ShortWeightsBalance()
    ensures AllIds(SHORT_REQUEST) == {"a", "b", "c"}
    ensures TotalWeight(SHORT_REQUEST.target) == TotalWeight(SHORT_REQUEST.current)
  {
    assert AllIds(SHORT_REQUEST) == {"a", "b", "c"};
    ThreeTerms(DeltaOf(SHORT_REQUEST));
    DeltaOfAll(SHORT_REQUEST);
  }

  lemma ShortMovesOne()
    ensures SumOver(Moved(SHORT_REQUEST, {"a", "b", "c"}), DeltaOf(SHORT_REQUEST)) > 0.0
  {
    var r := SHORT_REQUEST;
    assert "a" != "b" && "a" != "c" && "b" != "c";
    assert r.current["a"] == 0.5 && r.target["a"] == 0.50015;
    assert Delta(r.current, r.target, "a") == 0.00015;
    assert Delta(r.current, r.target, "b") == -0.0001;
    assert Delta(r.current, r.target, "c") == -0.00005;
    assert Moved(r, {"a", "b", "c"}) == {"a"};
    SumRemove({"a"}, DeltaOf(SHORT_REQUEST), "a");
    assert {"a"} - {"a"} == {};
  }

  lemma DustCanRunShort(ids: seq<string>)
    requires ListsSet(ids, AllIds(SHORT_REQUEST))
    ensures TotalWeight(SHORT_REQUEST.target) == TotalWeight(SHORT_REQUEST.current)
    ensures exists n :: 0 <= n <= |Plan(SHORT_REQUEST, ids)| && Cash(Plan(SHORT_REQUEST, ids)[..n]) < 0.0
  {
    ShortWeightsBalance();
    ShortMovesOne();
    NeverShortExactly(SHORT_REQUEST, ids);
  }

  // ---------------------------------------------------------------------------
  // Where a plan leads.
  // ---------------------------------------------------------------------------

  /** The weights after running instructions in order. */
  function Run(w: Weights, plan: seq<Instruction>): Weights {
    if plan == [] then w
    else
      var last := plan[|plan| - 1];
      var before := Run(w, plan[..|plan| - 1]);
      before[last.strategy := Weight(before, last.strategy) + last.deltaWeight]
  }

  ghost predicate DistinctStrategies(plan: seq<Instruction>) {
    forall i, j :: 0 <= i < j < |plan| ==> plan[i].strategy != plan[j].strategy
  }

  lemma {:induction false} RunUntouched(w: Weights, plan: seq<Instruction>, id: string)
    requires forall i :: 0 <= i < |plan| ==> plan[i].strategy != id
    ensures Weight(Run(w, plan), id) == Weight(w, id)
  {
    if plan != [] {
      RunUntouched(w, plan[..|plan| - 1], id);
    }
  }

  lemma {:induction false} RunTouched(w: Weights, plan: seq<Instruction>, i: nat)
    requires i < |plan| && DistinctStrategies(plan)
    ensures Weight(Run(w, plan), plan[i].strategy) == Weight(w, plan[i].strategy) + plan[i].deltaWeight
  {
    var last := |plan| - 1;
    if i == last {
      RunUntouched(w, plan[..last], plan[i].strategy);
    } else {
      assert plan[..last][i] == plan[i];
      RunTouched(w, plan[..last], i);
    }
  }

  /** Each strategy is moved at most once, steps count from 1, and exactly the
      strategies above the dust threshold are moved. */
  lemma PlanIsComplete(r: Request, ids: seq<string>)
    requires ListsSet(ids, AllIds(r))
    ensures DistinctStrategies(Plan(r, ids))
    ensures forall i :: 0 <= i < |Plan(r, ids)| ==>
      Plan(r, ids)[i].step == i + 1 && Plan(r, ids)[i] == Draft(r, Plan(r, ids)[i].strategy).(step := i + 1)
    ensures forall id :: id in Moved(r, AllIds(r)) <==> exists i :: 0 <= i < |Plan(r, ids)| && Plan(r, ids)[i].strategy == id
  {
    PlanIsLegs(r, ids);
    var down, up := Legs(r, ids, Decrease), Legs(r, ids, Increase);
    var all := down + up;
    LegsAreDrafts(r, ids, Decrease);
    LegsAreDrafts(r, ids, Increase);
    LegsAreSorted(r, ids, Decrease);
    LegsAreSorted(r, ids, Increase);
    LegsAreDistinct(down, up);
    forall i | 0 <= i < |all|
      ensures all[i] == Draft(r, all[i].strategy) && all[i].strategy in Moved(r, AllIds(r))
    {
      assert all[i] in down || all[i] in up;
      assert all[i].strategy in Elements(ids);
    }
    forall id | id in Moved(r, AllIds(r))
      ensures exists i :: 0 <= i < |all| && all[i].strategy == id
    {
      assert id in Elements(ids);
      EveryMoveHasALeg(r, ids, Draft(r, id).direction, id);
      assert Draft(r, id) in all;
    }
  }

  /** The weights, amounts, direction, vault and risk that an instruction carries agree
      with the request and with each other. */
  ghost predicate SelfContained(r: Request, x: Instruction) {
    && x.currentWeight == Weight(r.current, x.strategy) && x.targetWeight == Weight(r.target, x.strategy)
    && x.currentWeight + x.deltaWeight == x.targetWeight && (x.deltaWeight > 0.0001 || x.deltaWeight < -0.0001)
    && x.deltaAmount == x.deltaWeight * r.total
    && (x.direction.Increase? <==> x.targetWeight > x.currentWeight)
    && x.amount > 0.0 && x.deltaAmount == (if x.direction.Increase? then x.amount else -x.amount)
    && x.vault == VaultOf(r.strategies, x.strategy) && x.risk == RiskOf(r.strategies, x.strategy)
  }

  lemma DraftIsSelfContained(r: Request, id: string, step: nat)
    requires r.total > 0.0 && !Skipped(r.current, r.target, id)
    ensures SelfContained(r, Draft(r, id).(step := step))
  {
    SignOfAmount(Delta(r.current, r.target, id), r.total);
  }

  lemma PlanEntry(r: Request, ids: seq<string>, i: nat) returns (id: string)
    requires ListsSet(ids, AllIds(r)) && i < |Plan(r, ids)|
    ensures !Skipped(r.current, r.target, id) && Plan(r, ids)[i] == Draft(r, id).(step := i + 1)
  {
    PlanIsComplete(r, ids);
    id := Plan(r, ids)[i].strategy;
    assert id in Moved(r, AllIds(r));
  }

  /** Each instruction can be executed on its own. */
  lemma InstructionIsSelfContained(r: Request, ids: seq<string>, i: nat)
    requires r.total > 0.0 && ListsSet(ids, AllIds(r)) && i < |Plan(r, ids)|
    ensures SelfContained(r, Plan(r, ids)[i])
  {
    var id := PlanEntry(r, ids, i);
    DraftIsSelfContained(r, id, i + 1);
  }

  /** The vault of the strategy listed last under an id. */
  function VaultOf(strategies: seq<Strategy>, id: string): (v: Option<string>)
    ensures (forall i :: 0 <= i < |strategies| ==> strategies[i].id != id) ==> v == None
    ensures forall i :: IsLastOf(strategies, id, i) ==> v == strategies[i].vault
  {
    LookupFindsLast(strategies, id);
    var found := Lookup(strategies, id);
    if found.Some? then found.value.vault else None
  }

  /** The risk of the strategy listed last under an id. */
  function RiskOf(strategies: seq<Strategy>, id: string): (v: Option<real>)
    ensures (forall i :: 0 <= i < |strategies| ==> strategies[i].id != id) ==> v == None
    ensures forall i :: IsLastOf(strategies, id, i) ==> v == Some(strategies[i].risk)
  {
    LookupFindsLast(strategies, id);
    var found := Lookup(strategies, id);
    if found.Some? then Some(found.value.risk) else None
  }

  lemma {:induction false} LookupFindsLast(strategies: seq<Strategy>, id: string)
    ensures (forall i :: 0 <= i < |strategies| ==> strategies[i].id != id) ==> Lookup(strategies, id) == None
    ensures forall i :: IsLastOf(strategies, id, i) ==> Lookup(strategies, id) == Some(strategies[i])
  {
    if strategies != [] {
      var last := |strategies| - 1;
      LookupFindsLast(strategies[..last], id);
      forall i | IsLastOf(strategies, id, i)
        ensures Lookup(strategies, id) == Some(strategies[i])
      {
        if i < last {
          assert strategies[last].id != id;
          assert IsLastOf(strategies[..last], id, i);
        }
      }
    }
  }

  predicate IsLastOf(strategies: seq<Strategy>, id: string, i: int) {
    && 0 <= i < |strategies| && strategies[i].id == id
    && forall j :: i < j < |strategies| ==> strategies[j].id != id
  }

  lemma SignOfAmount(delta: real, total: real)
    requires total > 0.0
    ensures delta * total > 0.0 <==> delta > 0.0
    ensures delta * total < 0.0 <==> delta < 0.0
  {
  }

  lemma LegsAreDistinct(down: seq<Instruction>, up: seq<Instruction>)
    requires DistinctStrategies(down) && DistinctStrategies(up)
    requires forall x, y :: x in down && y in up ==> x.strategy != y.strategy
    ensures DistinctStrategies(down + up)
  {
    var all := down + up;
    forall i, j | 0 <= i < j < |all|
      ensures all[i].strategy != all[j].strategy
    {
      if i < |down| <= j {
        assert all[i] in down && all[j] in up;
      }
    }
  }

  lemma MovedReachesTarget(r: Request, ids: seq<string>, id: string)
    requires ListsSet(ids, AllIds(r)) && id in Moved(r, AllIds(r))
    ensures Weight(Run(r.current, Plan(r, ids)), id) == Weight(r.target, id)
  {
    var plan := Plan(r, ids);
    var i := PlanMoves(r, ids, id);
    PlanIsDistinct(r, ids);
    RunTouched(r.current, plan, i);
  }

  lemma PlanMoves(r: Request, ids: seq<string>, id: string) returns (i: nat)
    requires ListsSet(ids, AllIds(r)) && id in Moved(r, AllIds(r))
    ensures i < |Plan(r, ids)| && Plan(r, ids)[i].strategy == id
    ensures Plan(r, ids)[i].deltaWeight == Delta(r.current, r.target, id)
  {
    PlanIsComplete(r, ids);
    i :| i < |Plan(r, ids)| && Plan(r, ids)[i].strategy == id;
  }

  /** A plan moves a strategy exactly when it is listed on either side and its weights,
      zero where it is not listed, differ by more than 0.0001. */
  lemma PlanMovesExactly(r: Request, ids: seq<string>, id: string)
    requires ListsSet(ids, AllIds(r))
    ensures (exists i :: 0 <= i < |Plan(r, ids)| && Plan(r, ids)[i].strategy == id) <==>
      && (id in r.current || id in r.target)
      && var delta := (if id in r.target then r.target[id] else 0.0) - (if id in r.current then r.current[id] else 0.0);
         delta > 0.0001 || delta < -0.0001
  {
    if id in Moved(r, AllIds(r)) {
      var i := PlanMoves(r, ids, id);
    } else {
      PlanAvoids(r, ids, id);
    }
  }

  lemma PlanIsDistinct(r: Request, ids: seq<string>)
    requires ListsSet(ids, AllIds(r))
    ensures DistinctStrategies(Plan(r, ids))
  {
    PlanIsComplete(r, ids);
  }

  lemma UnmovedStays(r: Request, ids: seq<string>, id: string)
    requires ListsSet(ids, AllIds(r)) && id !in Moved(r, AllIds(r))
    ensures Weight(Run(r.current, Plan(r, ids)), id) == Weight(r.current, id)
  {
    PlanAvoids(r, ids, id);
    RunUntouched(r.current, Plan(r, ids), id);
  }

  lemma PlanAvoids(r: Request, ids: seq<string>, id: string)
    requires ListsSet(ids, AllIds(r)) && id !in Moved(r, AllIds(r))
    ensures forall i :: 0 <= i < |Plan(r, ids)| ==> Plan(r, ids)[i].strategy != id
  {
    PlanIsComplete(r, ids);
  }

  /** Running a plan brings every moved strategy exactly to its target and leaves
      every other one where it was, within the dust threshold. */
  lemma PlanReachesTarget(r: Request, ids: seq<string>, id: string)
    requires ListsSet(ids, AllIds(r))
    ensures var after := Weight(Run(r.current, Plan(r, ids)), id);
      if id in AllIds(r) && !Skipped(r.current, r.target, id) then after == Weight(r.target, id)
      else after == Weight(r.current, id) && Abs(Weight(r.target, id) - after) <= DUST
  {
    if id in Moved(r, AllIds(r)) {
      MovedReachesTarget(r, ids, id);
    } else {
      UnmovedStays(r, ids, id);
    }
  }

  lemma {:induction false} NothingToDraft(r: Request, ids: seq<string>)
    requires forall id :: id in ids ==> Skipped(r.current, r.target, id)
    ensures Drafts(r, ids) == []
  {
    if ids != [] {
      NothingToDraft(r, ids[..|ids| - 1]);
      assert ids[|ids| - 1] in ids;
    }
  }

  /** Planning again from where a plan leads gives the empty plan. */
  lemma ReplanIsEmpty(r: Request, ids: seq<string>, again: seq<string>)
    requires ListsSet(ids, AllIds(r))
    ensures Plan(r.(current := Run(r.current, Plan(r, ids))), again) == []
  {
    var r' := r.(current := Run(r.current, Plan(r, ids)));
    forall id | id in again
      ensures Skipped(r'.current, r'.target, id)
    {
      PlanReachesTarget(r, ids, id);
    }
    NothingToDraft(r', again);
  }

  // ---------------------------------------------------------------------------
  // Execution.
  // ---------------------------------------------------------------------------

  datatype Allocation = Allocation(amount: real, targetWeight: real, currentWeight: real)

  /** Whether the treasury account's lock was obtained. */
  datatype Lock = Acquired | Refused(message: string)

  /** What submitting one movement comes to. */
  datatype Outcome = Sent(hash: string, cost: real) | Raised(message: string)

  datatype Status = InProgress | Completed | Failed

  /** The audit record of one rebalancing. */
  datatype History = History(
    status: Status,
    movements: seq<Instruction>,
    hashes: Option<seq<string>>,
    cost: Option<real>,
    error: Option<string>)

  /** The plan of a request. */
  ghost function FullPlan(r: Request): seq<Instruction> {
    Plan(r, InOrder(AllIds(r)))
  }

  /** Every one of the first `n` submissions goes through. */
  predicate AllSent(outcome: nat -> Outcome, n: nat) {
    forall i: nat :: i < n ==> outcome(i).Sent?
  }

  function Hashes(outcome: nat -> Outcome, n: nat): seq<string>
    requires AllSent(outcome, n)
  {
    seq(n, i requires 0 <= i < n => outcome(i).hash)
  }

  function Cost(outcome: nat -> Outcome, n: nat): real
    requires AllSent(outcome, n)
  {
    if n == 0 then 0.0 else Cost(outcome, n - 1) + outcome(n - 1).cost
  }

  /** The cost is the sum of the single costs: of one movement it is that movement's,
      and costs of consecutive stretches add up. */
  lemma {:induction false} CostsAdd(outcome: nat -> Outcome, m: nat, n: nat)
    requires AllSent(outcome, m + n)
    ensures AllSent((i: nat) => outcome(m + i), n)
    ensures Cost(outcome, m + n) == Cost(outcome, m) + Cost((i: nat) => outcome(m + i), n)
    ensures m == 0 && n == 1 ==> Cost(outcome, m + n) == outcome(0).cost
  {
    if n > 0 {
      CostsAdd(outcome, m, n - 1);
    }
  }

  function Row(weight: real, total: real): Allocation {
    Allocation(Times(total, weight), weight, weight)
  }

  /** The allocation table once every target row has been written. */
  function Updated(table: map<string, Allocation>, target: Weights, total: real): map<string, Allocation> {
    table + map id | id in target :: Row(target[id], total)
  }

  /** The table once the target rows outside `rest` have been written. */
  function Partly(table: map<string, Allocation>, target: Weights, rest: set<string>, total: real): map<string, Allocation> {
    table + map id | id in target && id !in rest :: Row(target[id], total)
  }

  lemma PartlyOneMore(table: map<string, Allocation>, target: Weights, rest: set<string>, total: real, id: string)
    requires id in target
    ensures Partly(table, target, rest, total)[id := Row(target[id], total)] == Partly(table, target, rest - {id}, total)
  {
  }

  lemma PartlyEnds(table: map<string, Allocation>, target: Weights, total: real)
    ensures Partly(table, target, target.Keys, total) == table
    ensures Partly(table, target, {}, total) == Updated(table, target, total)
  {
  }

  class CapitalRebalancer {
    var allocations: map<string, Allocation>
    var history: seq<History>

    method UpdateAllocations(target: Weights, total: real)
      modifies `allocations
      ensures allocations == Updated(old(allocations), target, total)
      ensures forall id :: id in target ==> id in allocations && allocations[id] == Allocation(target[id] * total, target[id], target[id])
      ensures forall id :: id !in target ==> (id in allocations <==> id in old(allocations))
      ensures forall id :: id in allocations && id !in target ==> allocations[id] == old(allocations)[id]
    {
      ghost var table := allocations;
      PartlyEnds(table, target, total);
      var rest := target.Keys;
      while rest != {}
        invariant rest <= target.Keys && allocations == Partly(table, target, rest, total)
        decreases |rest|
      {
        var id :| id in rest;
        PartlyOneMore(table, target, rest, total, id);
        allocations := allocations[id := Row(target[id], total)];
        rest := rest - {id};
      }
    }

    /** Under the lock, movements run in order until one raises; only then is the table
        written and the record completed.  `sent` is what reached the chain. */
    method ExecuteRebalancing(r: Request, lock: Lock, outcome: nat -> Outcome) returns (ok: bool, sent: seq<string>)
      modifies this
      ensures ok <==> lock.Acquired? && AllSent(outcome, |FullPlan(r)|)
      ensures |history| == |old(history)| + 1 && history[..|old(history)|] == old(history)
      ensures history[|old(history)|].movements == FullPlan(r)
      ensures ok ==>
        && history[|old(history)|] == History(Completed, FullPlan(r), Some(sent), Some(Cost(outcome, |FullPlan(r)|)), None)
        && sent == Hashes(outcome, |FullPlan(r)|)
        && allocations == Updated(old(allocations), r.target, r.total)
      ensures lock.Refused? ==>
        && sent == [] && allocations == old(allocations)
        && history[|old(history)|] == History(Failed, FullPlan(r), None, None, Some(lock.message))
      ensures lock.Acquired? && !ok ==>
        && |sent| < |FullPlan(r)| && AllSent(outcome, |sent|) && sent == Hashes(outcome, |sent|)
        && outcome(|sent|).Raised?
        && history[|old(history)|] == History(Failed, FullPlan(r), None, None, Some(outcome(|sent|).message))
        && allocations == old(allocations)
    {
      var movements := BuildRebalancingInstructions(r);
      var at := |history|;
      history := history + [History(InProgress, movements, None, None, None)];
      sent := [];
      var cost := 0.0;
      if lock.Refused? {
        history := history[at := history[at].(status := Failed, error := Some(lock.message))];
        ok := false;
        return;
      }
      for i := 0 to |movements|
        invariant |history| == at + 1 && history[..at] == old(history)
        invariant history[at] == History(InProgress, movements, None, None, None)
        invariant allocations == old(allocations)
        invariant AllSent(outcome, i) && sent == Hashes(outcome, i) && cost == Cost(outcome, i)
      {
        match outcome(i) {
          case Raised(message) =>
            history := history[at := history[at].(status := Failed, error := Some(message))];
            ok := false;
            return;
          case Sent(hash, fee) =>
            sent := sent + [hash];
            cost := cost + fee;
        }
      }
      UpdateAllocations(r.target, r.total);
      history := history[at := history[at].(status := Completed, hashes := Some(sent), cost := Some(cost))];
      ok := true;
    }
  }

  /** The weights that the next plan starts from, as they are read back. */
  function CurrentWeights(table: map<string, Allocation>): Weights {
    map id | id in table :: table[id].currentWeight
  }

  /** A row of an updated table: written from the target, or as it was. */
  lemma UpdatedRow(table: map<string, Allocation>, target: Weights, total: real, id: string)
    ensures id in Updated(table, target, total) <==> id in table || id in target
    ensures id in target ==> Updated(table, target, total)[id] == Allocation(target[id] * total, target[id], target[id])
    ensures id in table && id !in target ==> Updated(table, target, total)[id] == table[id]
  {
  }

  /** After the table has been updated, planning from its own weights for the same
      target gives the empty plan exactly when every row that the target leaves out
      carries no more than the dust threshold. */
  lemma NothingLeftExactly(strategies: seq<Strategy>, table: map<string, Allocation>, target: Weights, total: real, capital: real)
    ensures FullPlan(Request(strategies, CurrentWeights(Updated(table, target, total)), target, capital)) == [] <==>
      forall id :: id in table && id !in target ==> -0.0001 <= table[id].currentWeight <= 0.0001
  {
    var r := Request(strategies, CurrentWeights(Updated(table, target, total)), target, capital);
    forall id: string
      ensures id in AllIds(r) ==> (Skipped(r.current, r.target, id) <==>
        (id in table && id !in target ==> -0.0001 <= table[id].currentWeight <= 0.0001))
    {
      UpdatedRow(table, target, total, id);
    }
    if stale :| stale in table && stale !in target && !(-0.0001 <= table[stale].currentWeight <= 0.0001) {
      UpdatedRow(table, target, total, stale);
      var i := PlanMoves(r, InOrder(AllIds(r)), stale);
    } else {
      var ids := InOrder(AllIds(r));
      assert forall id :: id in ids ==> id in Elements(ids);
      NothingToDraft(r, ids);
    }
  }

  /** In particular, a completed execution on a table whose rows all lie in the target
      leaves nothing to move. */
  lemma CompletedLeavesNothing(strategies: seq<Strategy>, table: map<string, Allocation>, target: Weights, total: real, capital: real)
    requires table.Keys <= target.Keys
    ensures FullPlan(Request(strategies, CurrentWeights(Updated(table, target, total)), target, capital)) == []
  {
    NothingLeftExactly(strategies, table, target, total, capital);
  }

  // ---------------------------------------------------------------------------
  // Capital is conserved exactly when no stale row keeps its amount.
  // ---------------------------------------------------------------------------

  function AmountOf(table: map<string, Allocation>): string -> real {
    id => if id in table then table[id].amount else 0.0
  }

  ghost function Capital(table: map<string, Allocation>): real {
    SumOver(table.Keys, AmountOf(table))
  }

  /** What the rows outside the target still claim. */
  ghost function Stale(table: map<string, Allocation>, target: Weights): real {
    SumOver(table.Keys - target.Keys, AmountOf(table))
  }

  lemma CapitalAfterUpdate(table: map<string, Allocation>, target: Weights, total: real)
    ensures Capital(Updated(table, target, total)) == Times(total, TotalWeight(target)) + Stale(table, target)
  {
    var after := Updated(table, target, total);
    var stale := table.Keys - target.Keys;
    assert after.Keys == target.Keys + stale;
    SumUnion(target.Keys, stale, AmountOf(after));
    SumAgree(stale, AmountOf(after), AmountOf(table));
    forall id | id in target.Keys
      ensures AmountOf(after)(id) == Times(total, WeightOf(target)(id))
    {
    }
    SumScale(target.Keys, WeightOf(target), AmountOf(after), total);
  }

  /** Allocated amounts still total the capital exactly when what the stale rows
      claim is what the target leaves unassigned; a target that sums to 1 and
      covers every row conserves it. */
  lemma CapitalIsConservedExactly(table: map<string, Allocation>, target: Weights, total: real)
    ensures Capital(Updated(table, target, total)) == total <==> Stale(table, target) == total - Times(total, TotalWeight(target))
    ensures TotalWeight(target) == 1.0 ==> (Capital(Updated(table, target, total)) == total <==> Stale(table, target) == 0.0)
    ensures TotalWeight(target) == 1.0 && table.Keys <= target.Keys ==> Capital(Updated(table, target, total)) == total
  {
    CapitalAfterUpdate(table, target, total);
    if table.Keys <= target.Keys {
      assert table.Keys - target.Keys == {};
    }
  }

  /** A row that the target leaves out keeps its amount, so its capital is counted
      twice: 10 units become 16. */
  lemma StaleRowIsCountedTwice()
    ensures var table := map["a" := Allocation(4.0, 0.4, 0.4), "b" := Allocation(6.0, 0.6, 0.6)];
      Capital(table) == 10.0 && Capital(Updated(table, map["a" := 1.0], 10.0)) == 16.0
  {
    var table := map["a" := Allocation(4.0, 0.4, 0.4), "b" := Allocation(6.0, 0.6, 0.6)];
    var target := map["a" := 1.0];
    SumRemove(table.Keys, AmountOf(table), "a");
    assert table.Keys - {"a"} == {"b"} && table.Keys - target.Keys == {"b"};
    SumRemove({"b"}, AmountOf(table), "b");
    assert {"b"} - {"b"} == {};
    SumRemove(target.Keys, WeightOf(target), "a");
    assert target.Keys - {"a"} == {};
    CapitalAfterUpdate(table, target, 10.0);
  }
}
