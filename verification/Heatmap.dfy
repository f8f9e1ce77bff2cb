/** Liquidation heatmaps (app/analytics/liquidation_heatmap.py), in exact arithmetic. */
module Heatmap {
  import opened Results
  import opened Sorting

  /** `side` is only compared with "long"; every other value counts as short. */
  datatype Position = Position(side: string, price: real, exposure: real)

  datatype Bucket = Bucket(lower: real, upper: real, longExposure: real, shortExposure: real, total: real, count: nat)

  datatype Settings = Settings(size: real, minPrice: Option<real>, maxPrice: Option<real>)

  datatype HeatmapError = BadSize | BadPosition

  /** Running totals. */
  datatype Row = Row(longs: real, shorts: real, count: nat)

  const ZERO := Row(0.0, 0.0, 0)

  function Plus(a: Row, b: Row): Row {
    Row(a.longs + b.longs, a.shorts + b.shorts, a.count + b.count)
  }

  predicate Malformed(p: Position) {
    p.price <= 0.0 || p.exposure < 0.0
  }

  predicate InRange(s: Settings, p: Position) {
    (s.minPrice.Some? ==> p.price >= s.minPrice.value) && (s.maxPrice.Some? ==> p.price <= s.maxPrice.value)
  }

  /** What one position contributes to its bucket. */
  function Share(p: Position): Row {
    if p.side == "long" then Row(p.exposure, 0.0, 1) else Row(0.0, p.exposure, 1)
  }

  // ---------------------------------------------------------------------------
  // Slots: buckets numbered by their lower price in bucket sizes.
  // ---------------------------------------------------------------------------

  function Slot(size: real, price: real): int
    requires size > 0.0
  {
    (price / size).Floor
  }

  function Lower(size: real, slot: int): real {
    slot as real * size
  }

  lemma LowerIsMonotone(size: real, a: int, b: int)
    requires size > 0.0 && a <= b
    ensures Lower(size, a) <= Lower(size, b)
    ensures a < b ==> Lower(size, a) < Lower(size, b)
  {
    assert (b - a) as real * size >= 0.0;
    assert b as real * size == a as real * size + (b - a) as real * size;
  }

  lemma QuotientBounds(size: real, price: real, q: real)
    requires size > 0.0 && q == price / size
    ensures q * size == price
  {
  }

  lemma ScaledOrder(a: real, b: real, size: real)
    requires size > 0.0
    ensures a <= b ==> a * size <= b * size
    ensures a < b ==> a * size < b * size
  {
    assert b * size == a * size + (b - a) * size;
    assert a <= b ==> (b - a) * size >= 0.0;
    assert a < b ==> (b - a) * size > 0.0;
  }

  lemma ScaledBounds(size: real, q: real, slot: int)
    requires size > 0.0 && slot as real <= q < slot as real + 1.0
    ensures Lower(size, slot) <= q * size < Lower(size, slot + 1)
  {
    var next := slot + 1;
    assert next as real == slot as real + 1.0;
    ScaledOrder(slot as real, q, size);
    ScaledOrder(q, next as real, size);
    assert q * size < next as real * size;
    assert Lower(size, next) == next as real * size;
  }

  /** A price lies in exactly one half-open bucket, and that is its slot. */
  lemma ExactlyOneBucket(size: real, price: real, slot: int)
    requires size > 0.0
    ensures Slot(size, price) == slot <==> Lower(size, slot) <= price < Lower(size, slot + 1)
  {
    var mine := Slot(size, price);
    QuotientBounds(size, price, price / size);
    ScaledBounds(size, price / size, mine);
    if slot < mine {
      LowerIsMonotone(size, slot + 1, mine);
    } else if mine < slot {
      LowerIsMonotone(size, mine + 1, slot);
    }
  }

  // ---------------------------------------------------------------------------
  // What a bucket should hold.
  // ---------------------------------------------------------------------------

  /** Totals of the in-range positions whose slot is selected. */
  ghost function Totals(ps: seq<Position>, s: Settings, selected: int -> bool): Row
    requires s.size > 0.0
  {
    if ps == [] then ZERO
    else
      var p := ps[|ps| - 1];
      var before := Totals(ps[..|ps| - 1], s, selected);
      if InRange(s, p) && selected(Slot(s.size, p.price)) then Plus(before, Share(p)) else before
  }

  function Is(slot: int): int -> bool {
    x => x == slot
  }

  function All(): int -> bool {
    x => true
  }

  /** The slots that land in one slot of a map whose buckets are k times as large. */
  function InGroup(k: nat, group: int): int -> bool
    requires k >= 1
  {
    x => x / k == group
  }

  ghost function Cell(ps: seq<Position>, s: Settings, slot: int): Row
    requires s.size > 0.0
  {
    Totals(ps, s, Is(slot))
  }

  function MakeBucket(size: real, slot: int, row: Row): Bucket {
    Bucket(Lower(size, slot), Lower(size, slot) + size, row.longs, row.shorts, row.longs + row.shorts, row.count)
  }

  /** The buckets list, in ascending order, exactly the slots that hold a position,
      each with its totals. */
  ghost predicate IsHeatmap(ps: seq<Position>, s: Settings, slots: seq<int>, buckets: seq<Bucket>)
    requires s.size > 0.0
  {
    && |slots| == |buckets|
    && (forall i, j :: 0 <= i < j < |slots| ==> slots[i] < slots[j])
    && (forall slot :: slot in slots <==> Cell(ps, s, slot).count > 0)
    && (forall i :: 0 <= i < |slots| ==> buckets[i] == MakeBucket(s.size, slots[i], Cell(ps, s, slots[i])))
  }

  ghost predicate Groups(ps: seq<Position>, s: Settings, grouped: map<real, Row>)
    requires s.size > 0.0
  {
    && (forall slot: int :: Lower(s.size, slot) in grouped <==> Cell(ps, s, slot).count > 0)
    && (forall slot: int :: Lower(s.size, slot) in grouped ==> grouped[Lower(s.size, slot)] == Cell(ps, s, slot))
    && (forall key :: key in grouped ==> exists slot: int :: key == Lower(s.size, slot))
  }

  lemma CellAfter(ps: seq<Position>, s: Settings, n: nat, slot: int)
    requires s.size > 0.0 && n < |ps|
    ensures Cell(ps[..n + 1], s, slot) ==
      if InRange(s, ps[n]) && Slot(s.size, ps[n].price) == slot then Plus(Cell(ps[..n], s, slot), Share(ps[n]))
      else Cell(ps[..n], s, slot)
  {
    assert ps[..n + 1][..n] == ps[..n];
  }

  lemma {:induction false} EmptyCellIsZero(ps: seq<Position>, s: Settings, slot: int)
    requires s.size > 0.0 && Cell(ps, s, slot).count == 0
    ensures Cell(ps, s, slot) == ZERO
  {
    if ps != [] {
      EmptyCellIsZero(ps[..|ps| - 1], s, slot);
    }
  }

  /** One position's update of the dictionary of running totals. */
  function AddTo(grouped: map<real, Row>, key: real, p: Position): map<real, Row> {
    grouped[key := Plus(if key in grouped then grouped[key] else ZERO, Share(p))]
  }

  lemma GroupsStep(ps: seq<Position>, s: Settings, n: nat, grouped: map<real, Row>)
    requires s.size > 0.0 && n < |ps| && Groups(ps[..n], s, grouped)
    ensures InRange(s, ps[n]) ==> Groups(ps[..n + 1], s, AddTo(grouped, Lower(s.size, Slot(s.size, ps[n].price)), ps[n]))
    ensures !InRange(s, ps[n]) ==> Groups(ps[..n + 1], s, grouped)
  {
    var mine := Slot(s.size, ps[n].price);
    forall slot: int
      ensures Cell(ps[..n + 1], s, slot) ==
        if InRange(s, ps[n]) && mine == slot then Plus(Cell(ps[..n], s, slot), Share(ps[n])) else Cell(ps[..n], s, slot)
      ensures slot != mine ==> Lower(s.size, slot) != Lower(s.size, mine)
    {
      CellAfter(ps, s, n, slot);
      if slot < mine {
        LowerIsMonotone(s.size, slot, mine);
      } else if mine < slot {
        LowerIsMonotone(s.size, mine, slot);
      }
    }
    if Lower(s.size, mine) !in grouped {
      EmptyCellIsZero(ps[..n], s, mine);
    }
  }

  // ---------------------------------------------------------------------------
  // Building the map.
  // ---------------------------------------------------------------------------

  function ByPrice(): (real, real) -> bool {
    (a, b) => a <= b
  }

  ghost predicate Ascending(s: seq<real>) {
    forall i, j :: 0 <= i < j < |s| ==> s[i] < s[j]
  }

  lemma {:induction false} InsertKeepsAscending(x: real, s: seq<real>)
    requires Ascending(s) && x !in s
    ensures Ascending(Insert(x, s, ByPrice()))
    ensures forall y :: y in Insert(x, s, ByPrice()) <==> y == x || y in s
  {
    if s != [] {
      assert s == [s[0]] + s[1..];
      if s[0] < x {
        InsertKeepsAscending(x, s[1..]);
        var rest := Insert(x, s[1..], ByPrice());
        forall i | 0 <= i < |rest|
          ensures s[0] < rest[i]
        {
          assert rest[i] in rest;
        }
      }
    }
  }

  lemma EmptyOrNot(s: set<real>)
    ensures s == {} || exists k :: k in s
  {
    if !exists k :: k in s {
      assert s == {};
    }
  }

  /** `sorted(grouped)`. */
  method SortedKeys(grouped: map<real, Row>) returns (keys: seq<real>)
    ensures Ascending(keys) && forall k :: k in keys <==> k in grouped
  {
    keys := [];
    var rest := grouped.Keys;
    while rest != {}
      invariant rest <= grouped.Keys && Ascending(keys)
      invariant forall k :: k in keys <==> k in grouped && k !in rest
      decreases |rest|
    {
      EmptyOrNot(rest);
      var k: real :| k in rest;
      InsertKeepsAscending(k, keys);
      keys := Insert(k, keys, ByPrice());
      rest := rest - {k};
    }
  }

  lemma SlotOfLower(size: real, slot: int)
    requires size > 0.0
    ensures Slot(size, Lower(size, slot)) == slot
  {
    LowerIsMonotone(size, slot, slot + 1);
    ExactlyOneBucket(size, Lower(size, slot), slot);
  }

  lemma SlotsAscend(size: real, a: real, b: real, i: int, j: int)
    requires size > 0.0 && a == Lower(size, i) && b == Lower(size, j) && a < b
    ensures i < j
  {
    if j <= i {
      LowerIsMonotone(size, j, i);
    }
  }

  /** The slots behind the sorted keys of the running totals. */
  lemma KeysAreSlots(ps: seq<Position>, s: Settings, grouped: map<real, Row>, keys: seq<real>) returns (slots: seq<int>)
    requires s.size > 0.0 && Groups(ps, s, grouped)
    requires Ascending(keys) && forall k :: k in keys <==> k in grouped
    ensures |slots| == |keys|
    ensures forall i :: 0 <= i < |keys| ==> keys[i] == Lower(s.size, slots[i]) && keys[i] in grouped
    ensures forall i, j :: 0 <= i < j < |slots| ==> slots[i] < slots[j]
    ensures forall slot :: slot in slots <==> Cell(ps, s, slot).count > 0
  {
    slots := seq(|keys|, i requires 0 <= i < |keys| => Slot(s.size, keys[i]));
    forall i | 0 <= i < |keys|
      ensures keys[i] == Lower(s.size, slots[i]) && keys[i] in grouped
    {
      assert keys[i] in keys;
      var slot: int :| keys[i] == Lower(s.size, slot);
      SlotOfLower(s.size, slot);
    }
    forall i, j | 0 <= i < j < |slots|
      ensures slots[i] < slots[j]
    {
      SlotsAscend(s.size, keys[i], keys[j], slots[i], slots[j]);
    }
    forall slot: int
      ensures slot in slots <==> Cell(ps, s, slot).count > 0
    {
      if slot in slots {
        var i :| 0 <= i < |slots| && slots[i] == slot;
        assert keys[i] in grouped && keys[i] == Lower(s.size, slot);
      }
      if Cell(ps, s, slot).count > 0 {
        assert Lower(s.size, slot) in keys;
        var i :| 0 <= i < |keys| && keys[i] == Lower(s.size, slot);
        SlotOfLower(s.size, slot);
        assert slots[i] == slot;
      }
    }
  }

  method GroupPositions(ps: seq<Position>, s: Settings) returns (r: Result<map<real, Row>, HeatmapError>)
    requires s.size > 0.0
    ensures r.Err? ==> r.error == BadPosition && exists i :: 0 <= i < |ps| && Malformed(ps[i])
    ensures r.Ok? ==> Groups(ps, s, r.value) && forall i :: 0 <= i < |ps| ==> !Malformed(ps[i])
  {
    var grouped: map<real, Row> := map[];
    for i := 0 to |ps|
      invariant Groups(ps[..i], s, grouped)
      invariant forall j :: 0 <= j < i ==> !Malformed(ps[j])
    {
      if Malformed(ps[i]) {
        return Err(BadPosition);
      }
      GroupsStep(ps, s, i, grouped);
      if InRange(s, ps[i]) {
        grouped := AddTo(grouped, Lower(s.size, Slot(s.size, ps[i].price)), ps[i]);
      }
    }
    assert ps[..|ps|] == ps;
    return Ok(grouped);
  }

  method BuildLiquidationHeatmap(ps: seq<Position>, s: Settings) returns (r: Result<seq<Bucket>, HeatmapError>, ghost slots: seq<int>)
    ensures s.size <= 0.0 ==> r == Err(BadSize)
    ensures s.size > 0.0 && (exists i :: 0 <= i < |ps| && (ps[i].price <= 0.0 || ps[i].exposure < 0.0)) ==> r == Err(BadPosition)
    ensures s.size > 0.0 && (forall i :: 0 <= i < |ps| ==> ps[i].price > 0.0 && ps[i].exposure >= 0.0) ==>
      r.Ok? && IsHeatmap(ps, s, slots, r.value)
  {
    slots := [];
    if s.size <= 0.0 {
      return Err(BadSize), [];
    }
    var grouping := GroupPositions(ps, s);
    if grouping.Err? {
      return Err(grouping.error), [];
    }
    var grouped := grouping.value;
    var keys := SortedKeys(grouped);
    slots := KeysAreSlots(ps, s, grouped, keys);
    var buckets := MakeBuckets(s.size, grouped, keys);
    BucketsMatchSlots(ps, s, grouped, keys, slots, buckets);
    r := Ok(buckets);
  }

  function KeyBucket(size: real, key: real, row: Row): Bucket {
    Bucket(key, key + size, row.longs, row.shorts, row.longs + row.shorts, row.count)
  }

  method MakeBuckets(size: real, grouped: map<real, Row>, keys: seq<real>) returns (buckets: seq<Bucket>)
    requires forall k :: k in keys ==> k in grouped
    ensures |buckets| == |keys|
    ensures forall i :: 0 <= i < |keys| ==> keys[i] in grouped && buckets[i] == KeyBucket(size, keys[i], grouped[keys[i]])
  {
    buckets := [];
    for i := 0 to |keys|
      invariant |buckets| == i
      invariant forall j :: 0 <= j < i ==> keys[j] in grouped && buckets[j] == KeyBucket(size, keys[j], grouped[keys[j]])
    {
      assert keys[i] in keys;
      buckets := buckets + [KeyBucket(size, keys[i], grouped[keys[i]])];
    }
  }

  lemma BucketsMatchSlots(ps: seq<Position>, s: Settings, grouped: map<real, Row>, keys: seq<real>, slots: seq<int>, buckets: seq<Bucket>)
    requires s.size > 0.0 && Groups(ps, s, grouped) && |slots| == |keys| == |buckets|
    requires forall i :: 0 <= i < |keys| ==> keys[i] == Lower(s.size, slots[i]) && keys[i] in grouped
    requires forall i :: 0 <= i < |keys| ==> keys[i] in grouped && buckets[i] == KeyBucket(s.size, keys[i], grouped[keys[i]])
    ensures forall i :: 0 <= i < |slots| ==> buckets[i] == MakeBucket(s.size, slots[i], Cell(ps, s, slots[i]))
  {
  }

  // ---------------------------------------------------------------------------
  // Conservation and coarsening.
  // ---------------------------------------------------------------------------

  /** Buckets are in order and do not overlap. */
  lemma BucketsAreDisjoint(ps: seq<Position>, s: Settings, slots: seq<int>, buckets: seq<Bucket>, i: nat, j: nat)
    requires s.size > 0.0 && IsHeatmap(ps, s, slots, buckets) && i < j < |buckets|
    ensures buckets[i].lower < buckets[i].upper <= buckets[j].lower
  {
    LowerIsMonotone(s.size, slots[i] + 1, slots[j]);
    assert Lower(s.size, slots[i] + 1) == Lower(s.size, slots[i]) + s.size;
  }

  /** The totals of the selected cells of a list of slots. */
  ghost function SumCells(ps: seq<Position>, s: Settings, slots: seq<int>, selected: int -> bool): Row
    requires s.size > 0.0
  {
    if slots == [] then ZERO
    else
      var slot := slots[|slots| - 1];
      var before := SumCells(ps, s, slots[..|slots| - 1], selected);
      if selected(slot) then Plus(before, Cell(ps, s, slot)) else before
  }

  lemma {:induction false} SumCellsOfNothing(s: Settings, slots: seq<int>, selected: int -> bool)
    requires s.size > 0.0
    ensures SumCells([], s, slots, selected) == ZERO
  {
    if slots != [] {
      SumCellsOfNothing(s, slots[..|slots| - 1], selected);
    }
  }

  /** Adding one position adds its share once, if its slot is listed once. */
  lemma {:induction false} SumCellsStep(ps: seq<Position>, s: Settings, slots: seq<int>, selected: int -> bool)
    requires s.size > 0.0 && ps != []
    requires forall i, j :: 0 <= i < j < |slots| ==> slots[i] != slots[j]
    ensures var n := |ps| - 1;
      SumCells(ps, s, slots, selected) ==
        if InRange(s, ps[n]) && Slot(s.size, ps[n].price) in slots && selected(Slot(s.size, ps[n].price))
        then Plus(SumCells(ps[..n], s, slots, selected), Share(ps[n]))
        else SumCells(ps[..n], s, slots, selected)
    decreases |slots|
  {
    if slots != [] {
      var rest, slot := slots[..|slots| - 1], slots[|slots| - 1];
      SumCellsStep(ps, s, rest, selected);
      CellAfter(ps, s, |ps| - 1, slot);
      assert ps[..|ps|] == ps;
      assert slot !in rest;
      assert forall x :: x in slots <==> x in rest || x == slot;
    }
  }

  /** Whatever slots are selected, the listed cells hold exactly the shares of the
      in-range positions that fall in them. */
  lemma {:induction false} CellsHoldEverything(ps: seq<Position>, s: Settings, slots: seq<int>, selected: int -> bool)
    requires s.size > 0.0
    requires forall i, j :: 0 <= i < j < |slots| ==> slots[i] != slots[j]
    requires forall i :: 0 <= i < |ps| && InRange(s, ps[i]) ==> Slot(s.size, ps[i].price) in slots
    ensures SumCells(ps, s, slots, selected) == Totals(ps, s, selected)
  {
    if ps == [] {
      SumCellsOfNothing(s, slots, selected);
    } else {
      CellsHoldEverything(ps[..|ps| - 1], s, slots, selected);
      SumCellsStep(ps, s, slots, selected);
    }
  }

  lemma {:induction false} CellIsOccupied(ps: seq<Position>, s: Settings, i: nat)
    requires s.size > 0.0 && i < |ps| && InRange(s, ps[i])
    ensures Cell(ps, s, Slot(s.size, ps[i].price)).count > 0
    decreases |ps|
  {
    if i < |ps| - 1 {
      CellIsOccupied(ps[..|ps| - 1], s, i);
    }
  }

  lemma HeatmapCoversPositions(ps: seq<Position>, s: Settings, slots: seq<int>, buckets: seq<Bucket>)
    requires s.size > 0.0 && IsHeatmap(ps, s, slots, buckets)
    ensures forall i :: 0 <= i < |ps| && InRange(s, ps[i]) ==> Slot(s.size, ps[i].price) in slots
  {
    forall i | 0 <= i < |ps| && InRange(s, ps[i])
      ensures Slot(s.size, ps[i].price) in slots
    {
      CellIsOccupied(ps, s, i);
    }
  }

  function RowOf(b: Bucket): Row {
    Row(b.longExposure, b.shortExposure, b.count)
  }

  ghost function SumBuckets(buckets: seq<Bucket>): Row {
    if buckets == [] then ZERO else Plus(SumBuckets(buckets[..|buckets| - 1]), RowOf(buckets[|buckets| - 1]))
  }

  lemma {:induction false} BucketsAreCells(ps: seq<Position>, s: Settings, slots: seq<int>, buckets: seq<Bucket>)
    requires s.size > 0.0 && |slots| == |buckets|
    requires forall i :: 0 <= i < |slots| ==> buckets[i] == MakeBucket(s.size, slots[i], Cell(ps, s, slots[i]))
    ensures SumBuckets(buckets) == SumCells(ps, s, slots, All())
  {
    if slots != [] {
      var n := |slots| - 1;
      BucketsAreCells(ps, s, slots[..n], buckets[..n]);
    }
  }

  /** Exposure per side and position counts are conserved: the buckets together hold
      exactly the in-range positions. */
  lemma HeatmapConserves(ps: seq<Position>, s: Settings, slots: seq<int>, buckets: seq<Bucket>)
    requires s.size > 0.0 && IsHeatmap(ps, s, slots, buckets)
    ensures SumBuckets(buckets) == Totals(ps, s, All())
  {
    HeatmapCoversPositions(ps, s, slots, buckets);
    CellsHoldEverything(ps, s, slots, All());
    BucketsAreCells(ps, s, slots, buckets);
  }

  lemma GroupBounds(k: nat, slot: int, group: int)
    requires k >= 1 && slot / k == group
    ensures group * k <= slot && slot + 1 <= (group + 1) * k
  {
  }

  lemma LowerOfGroup(size: real, k: nat, group: int)
    ensures Lower(k as real * size, group) == Lower(size, group * k)
  {
    assert (group * k) as real == group as real * k as real;
  }

  lemma SlotLiesInGroup(size: real, k: nat, slot: int)
    requires size > 0.0 && k >= 1
    ensures Lower(k as real * size, slot / k) <= Lower(size, slot)
    ensures Lower(size, slot + 1) <= Lower(k as real * size, slot / k + 1)
  {
    var group := slot / k;
    GroupBounds(k, slot, group);
    LowerIsMonotone(size, group * k, slot);
    LowerIsMonotone(size, slot + 1, (group + 1) * k);
    LowerOfGroup(size, k, group);
    LowerOfGroup(size, k, group + 1);
  }

  /** In buckets k times as large, a price's slot is the group of its old slot. */
  lemma CoarseSlot(size: real, k: nat, price: real)
    requires size > 0.0 && k >= 1 && k as real * size > 0.0
    ensures Slot(k as real * size, price) == Slot(size, price) / k
  {
    var fine := Slot(size, price);
    ExactlyOneBucket(size, price, fine);
    SlotLiesInGroup(size, k, fine);
    ExactlyOneBucket(k as real * size, price, fine / k);
  }

  lemma CoarseSelection(p: Position, s: Settings, coarse: Settings, k: nat, group: int)
    requires s.size > 0.0 && k >= 1 && coarse.size > 0.0 && coarse == s.(size := k as real * s.size)
    ensures InRange(coarse, p) == InRange(s, p)
    ensures Is(group)(Slot(coarse.size, p.price)) == InGroup(k, group)(Slot(s.size, p.price))
  {
    CoarseSlot(s.size, k, p.price);
  }

  lemma {:induction false} CoarseTotals(ps: seq<Position>, s: Settings, coarse: Settings, k: nat, group: int)
    requires s.size > 0.0 && k >= 1 && coarse.size > 0.0 && coarse == s.(size := k as real * s.size)
    ensures Cell(ps, coarse, group) == Totals(ps, s, InGroup(k, group))
  {
    if ps != [] {
      CoarseTotals(ps[..|ps| - 1], s, coarse, k, group);
      CoarseSelection(ps[|ps| - 1], s, coarse, k, group);
    }
  }

  /** The totals of the buckets that begin in a half-open price range. */
  ghost function SumWithin(buckets: seq<Bucket>, from: real, upTo: real): Row {
    if buckets == [] then ZERO
    else
      var b := buckets[|buckets| - 1];
      var before := SumWithin(buckets[..|buckets| - 1], from, upTo);
      if from <= b.lower < upTo then Plus(before, RowOf(b)) else before
  }

  /** A bucket begins in a group's price range exactly when its slot is in the group. */
  lemma GroupByPrice(size: real, k: nat, slot: int, group: int)
    requires size > 0.0 && k >= 1 && k as real * size > 0.0
    ensures Lower(k as real * size, group) <= Lower(size, slot) < Lower(k as real * size, group + 1) <==> slot / k == group
  {
    SlotOfLower(size, slot);
    CoarseSlot(size, k, Lower(size, slot));
    ExactlyOneBucket(k as real * size, Lower(size, slot), group);
  }

  /** Selecting buckets by price and cells by slot is the same, if the two agree. */
  lemma {:induction false} WithinIsSelected(ps: seq<Position>, s: Settings, slots: seq<int>, buckets: seq<Bucket>,
                                            from: real, upTo: real, selected: int -> bool)
    requires s.size > 0.0 && |slots| == |buckets|
    requires forall i :: 0 <= i < |slots| ==> buckets[i] == MakeBucket(s.size, slots[i], Cell(ps, s, slots[i]))
    requires forall i :: 0 <= i < |slots| ==> (from <= buckets[i].lower < upTo <==> selected(slots[i]))
    ensures SumWithin(buckets, from, upTo) == SumCells(ps, s, slots, selected)
  {
    if slots != [] {
      var n := |slots| - 1;
      WithinIsSelected(ps, s, slots[..n], buckets[..n], from, upTo, selected);
    }
  }

  /** A price range picks out the slots of a group. */
  ghost predicate PicksGroup(size: real, k: nat, group: int, from: real, upTo: real)
    requires k >= 1
  {
    forall slot: int :: from <= Lower(size, slot) < upTo <==> slot / k == group
  }

  lemma GroupPrices(size: real, k: nat, group: int, big: real)
    requires size > 0.0 && k >= 1 && big == k as real * size && big > 0.0
    ensures PicksGroup(size, k, group, Lower(big, group), Lower(big, group + 1))
  {
    forall slot: int
      ensures Lower(big, group) <= Lower(size, slot) < Lower(big, group + 1) <==> slot / k == group
    {
      GroupByPrice(size, k, slot, group);
    }
  }

  lemma WithinIsGroup(ps: seq<Position>, s: Settings, k: nat, slots: seq<int>, buckets: seq<Bucket>, group: int, from: real, upTo: real)
    requires s.size > 0.0 && k >= 1 && |slots| == |buckets| && PicksGroup(s.size, k, group, from, upTo)
    requires forall i :: 0 <= i < |slots| ==> buckets[i] == MakeBucket(s.size, slots[i], Cell(ps, s, slots[i]))
    ensures SumWithin(buckets, from, upTo) == SumCells(ps, s, slots, InGroup(k, group))
  {
    forall i | 0 <= i < |slots|
      ensures from <= buckets[i].lower < upTo <==> InGroup(k, group)(slots[i])
    {
      assert buckets[i].lower == Lower(s.size, slots[i]);
    }
    WithinIsSelected(ps, s, slots, buckets, from, upTo, InGroup(k, group));
  }

  /** Buckets begin at whole multiples of their size. */
  lemma LowerIsAMultiple(size: real, slot: int)
    ensures Lower(size, slot) == slot as real * size && Lower(size, 0) == 0.0 && Lower(size, slot + 1) - Lower(size, slot) == size
  {
  }

  lemma CoarseCellIsGroup(ps: seq<Position>, s: Settings, k: nat, slots: seq<int>, fine: seq<Bucket>, coarse: Settings, group: int)
    requires s.size > 0.0 && k >= 1 && coarse.size > 0.0 && coarse == s.(size := k as real * s.size)
    requires IsHeatmap(ps, s, slots, fine)
    ensures Cell(ps, coarse, group) == SumWithin(fine, Lower(coarse.size, group), Lower(coarse.size, group + 1))
  {
    HeatmapCoversPositions(ps, s, slots, fine);
    CoarseTotals(ps, s, coarse, k, group);
    CellsHoldEverything(ps, s, slots, InGroup(k, group));
    GroupPrices(s.size, k, group, coarse.size);
    WithinIsGroup(ps, s, k, slots, fine, group, Lower(coarse.size, group), Lower(coarse.size, group + 1));
  }

  lemma UpperIsNextLower(size: real, slot: int)
    ensures Lower(size, slot) + size == Lower(size, slot + 1)
  {
  }

  /** The map at size k*b is the map at size b with its buckets merged in aligned
      groups of k: every coarse bucket holds the sums of the fine buckets between
      its prices, and a group is listed exactly when one of them holds something. */
  lemma CoarseningMergesBuckets(ps: seq<Position>, s: Settings, k: nat, fineSlots: seq<int>, fine: seq<Bucket>,
                                coarse: Settings, coarseSlots: seq<int>, merged: seq<Bucket>)
    requires s.size > 0.0 && k >= 1 && coarse.size > 0.0 && coarse == s.(size := k as real * s.size)
    requires IsHeatmap(ps, s, fineSlots, fine) && IsHeatmap(ps, coarse, coarseSlots, merged)
    ensures forall i :: 0 <= i < |merged| ==>
      && RowOf(merged[i]) == SumWithin(fine, merged[i].lower, merged[i].upper)
      && merged[i].total == merged[i].longExposure + merged[i].shortExposure
      && merged[i].lower == Lower(coarse.size, coarseSlots[i]) && merged[i].upper == Lower(coarse.size, coarseSlots[i] + 1)
    ensures forall group ::
      group in coarseSlots <==> SumWithin(fine, Lower(coarse.size, group), Lower(coarse.size, group + 1)).count > 0
  {
    forall group: int
      ensures Cell(ps, coarse, group) == SumWithin(fine, Lower(coarse.size, group), Lower(coarse.size, group + 1))
    {
      CoarseCellIsGroup(ps, s, k, fineSlots, fine, coarse, group);
    }
    forall i | 0 <= i < |merged|
      ensures RowOf(merged[i]) == SumWithin(fine, merged[i].lower, merged[i].upper)
        && merged[i].upper == Lower(coarse.size, coarseSlots[i] + 1)
    {
      UpperIsNextLower(coarse.size, coarseSlots[i]);
    }
  }

  lemma BucketPrices(ps: seq<Position>, s: Settings, slots: seq<int>, buckets: seq<Bucket>, i: nat)
    requires s.size > 0.0 && IsHeatmap(ps, s, slots, buckets) && i < |buckets|
    ensures buckets[i].lower == Lower(s.size, slots[i]) < buckets[i].upper == Lower(s.size, slots[i] + 1)
  {
    UpperIsNextLower(s.size, slots[i]);
  }

  lemma GroupIsListed(ps: seq<Position>, s: Settings, k: nat, fineSlots: seq<int>, fine: seq<Bucket>,
                      coarse: Settings, coarseSlots: seq<int>, merged: seq<Bucket>, j: nat) returns (i: nat)
    requires s.size > 0.0 && k >= 1 && coarse.size > 0.0 && coarse == s.(size := k as real * s.size)
    requires IsHeatmap(ps, s, fineSlots, fine) && IsHeatmap(ps, coarse, coarseSlots, merged) && j < |fine|
    ensures i < |merged| && coarseSlots[i] == fineSlots[j] / k
  {
    var group := fineSlots[j] / k;
    assert fineSlots[j] in fineSlots;
    GroupByPrice(s.size, k, fineSlots[j], group);
    OccupiedWithin(fine, Lower(coarse.size, group), Lower(coarse.size, group + 1), j);
    CoarseCellIsGroup(ps, s, k, fineSlots, fine, coarse, group);
    assert group in coarseSlots;
    i :| i < |coarseSlots| && coarseSlots[i] == group;
  }

  /** Every fine bucket lies inside a coarse one. */
  lemma FineLiesInCoarse(ps: seq<Position>, s: Settings, k: nat, fineSlots: seq<int>, fine: seq<Bucket>,
                         coarse: Settings, coarseSlots: seq<int>, merged: seq<Bucket>, j: nat) returns (i: nat)
    requires s.size > 0.0 && k >= 1 && coarse.size > 0.0 && coarse == s.(size := k as real * s.size)
    requires IsHeatmap(ps, s, fineSlots, fine) && IsHeatmap(ps, coarse, coarseSlots, merged) && j < |fine|
    ensures i < |merged| && merged[i].lower <= fine[j].lower < fine[j].upper <= merged[i].upper
  {
    i := GroupIsListed(ps, s, k, fineSlots, fine, coarse, coarseSlots, merged, j);
    SlotLiesInGroup(s.size, k, fineSlots[j]);
    BucketPrices(ps, s, fineSlots, fine, j);
    BucketPrices(ps, coarse, coarseSlots, merged, i);
  }

  lemma {:induction false} OccupiedWithin(buckets: seq<Bucket>, from: real, upTo: real, j: nat)
    requires j < |buckets| && from <= buckets[j].lower < upTo && buckets[j].count > 0
    ensures SumWithin(buckets, from, upTo).count > 0
    decreases |buckets|
  {
    var n := |buckets| - 1;
    if j < n {
      OccupiedWithin(buckets[..n], from, upTo, j);
    }
  }

  // ---------------------------------------------------------------------------
  // What a bucket holds, by prices and sides.
  // ---------------------------------------------------------------------------

  /** The exposures of the wanted positions, summed. */
  ghost function ExposureOf(ps: seq<Position>, wanted: Position -> bool): real {
    if ps == [] then 0.0
    else ExposureOf(ps[..|ps| - 1], wanted) + (if wanted(ps[|ps| - 1]) then ps[|ps| - 1].exposure else 0.0)
  }

  ghost function CountOf(ps: seq<Position>, wanted: Position -> bool): nat {
    if ps == [] then 0 else CountOf(ps[..|ps| - 1], wanted) + (if wanted(ps[|ps| - 1]) then 1 else 0)
  }

  /** Not filtered out by the price bounds of the request. */
  predicate Kept(s: Settings, p: Position) {
    && (s.minPrice.Some? ==> s.minPrice.value <= p.price)
    && (s.maxPrice.Some? ==> p.price <= s.maxPrice.value)
  }

  function Between(s: Settings, from: real, upTo: real): Position -> bool {
    (p: Position) => Kept(s, p) && from <= p.price < upTo
  }

  function Longs(s: Settings, from: real, upTo: real): Position -> bool {
    (p: Position) => p.side == "long" && Kept(s, p) && from <= p.price < upTo
  }

  function Others(s: Settings, from: real, upTo: real): Position -> bool {
    (p: Position) => p.side != "long" && Kept(s, p) && from <= p.price < upTo
  }

  lemma {:induction false} CellByPrices(ps: seq<Position>, s: Settings, slot: int, from: real, upTo: real)
    requires s.size > 0.0 && from == Lower(s.size, slot) && upTo == Lower(s.size, slot + 1)
    ensures Cell(ps, s, slot) ==
      Row(ExposureOf(ps, Longs(s, from, upTo)), ExposureOf(ps, Others(s, from, upTo)), CountOf(ps, Between(s, from, upTo)))
  {
    if ps != [] {
      CellByPrices(ps[..|ps| - 1], s, slot, from, upTo);
      ExactlyOneBucket(s.size, ps[|ps| - 1].price, slot);
    }
  }

  /** A bucket holds the positions between its prices that the request does not filter
      out: the exposure of those on the long side, of all others, and their number. */
  lemma BucketHoldsItsPrices(ps: seq<Position>, s: Settings, slots: seq<int>, buckets: seq<Bucket>, i: nat)
    requires s.size > 0.0 && IsHeatmap(ps, s, slots, buckets) && i < |buckets|
    ensures var b := buckets[i];
      && b.lower == Lower(s.size, slots[i]) && b.upper == b.lower + s.size && b.total == b.longExposure + b.shortExposure
      && b.longExposure == ExposureOf(ps, Longs(s, b.lower, b.upper))
      && b.shortExposure == ExposureOf(ps, Others(s, b.lower, b.upper))
      && b.count == CountOf(ps, Between(s, b.lower, b.upper)) && b.count > 0
  {
    BucketPrices(ps, s, slots, buckets, i);
    CellByPrices(ps, s, slots[i], buckets[i].lower, buckets[i].upper);
    assert slots[i] in slots;
  }

  /** Every position that is not filtered out lies between the prices of a bucket. */
  lemma PositionIsHeld(ps: seq<Position>, s: Settings, slots: seq<int>, buckets: seq<Bucket>, j: nat) returns (i: nat)
    requires s.size > 0.0 && IsHeatmap(ps, s, slots, buckets) && j < |ps| && Kept(s, ps[j])
    ensures i < |buckets| && buckets[i].lower <= ps[j].price < buckets[i].upper
  {
    var slot := Slot(s.size, ps[j].price);
    HeatmapCoversPositions(ps, s, slots, buckets);
    i :| i < |slots| && slots[i] == slot;
    ExactlyOneBucket(s.size, ps[j].price, slot);
    BucketPrices(ps, s, slots, buckets, i);
  }

  function KeptLongs(s: Settings): Position -> bool {
    (p: Position) => p.side == "long" && Kept(s, p)
  }

  function KeptOthers(s: Settings): Position -> bool {
    (p: Position) => p.side != "long" && Kept(s, p)
  }

  function AllKept(s: Settings): Position -> bool {
    (p: Position) => Kept(s, p)
  }

  lemma {:induction false} TotalsBySides(ps: seq<Position>, s: Settings)
    requires s.size > 0.0
    ensures Totals(ps, s, All()) == Row(
      ExposureOf(ps, KeptLongs(s)),
      ExposureOf(ps, KeptOthers(s)),
      CountOf(ps, AllKept(s)))
  {
    if ps != [] {
      TotalsBySides(ps[..|ps| - 1], s);
    }
  }

  /** The buckets' long exposures sum to the exposure of the long positions that are not
      filtered out, the short ones to that of all other such positions, and the counts
      to their number. */
  lemma SidesAreConserved(ps: seq<Position>, s: Settings, slots: seq<int>, buckets: seq<Bucket>)
    requires s.size > 0.0 && IsHeatmap(ps, s, slots, buckets)
    ensures SumBuckets(buckets).longs == ExposureOf(ps, KeptLongs(s))
    ensures SumBuckets(buckets).shorts == ExposureOf(ps, KeptOthers(s))
    ensures SumBuckets(buckets).count == CountOf(ps, AllKept(s))
  {
    HeatmapConserves(ps, s, slots, buckets);
    TotalsBySides(ps, s);
  }
}
