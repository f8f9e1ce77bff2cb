/** The OpenAPI compatibility gate (scripts/check_openapi.py). */
module OpenApi {
  import opened Results

  // ---------------------------------------------------------------------------
  // Schemas.
  // ---------------------------------------------------------------------------

  /** `Local` names a schema under `#/components/schemas/`; other references are
      never followed. */
  datatype Ref = Local(name: string) | Other(text: string)

  datatype Property = Property(name: string, schema: Schema)

  /** The keywords that the comparison reads; an empty `type` counts as none.  `extra` is whether any other keyword is
      present, which decides only whether the object counts as empty. */
  datatype Schema = Schema(
    ref: Option<Ref>,
    kind: Option<string>,
    values: Option<set<string>>,
    properties: seq<Property>,
    required: set<string>,
    items: Option<Schema>,
    extra: bool)

  const EMPTY := Schema(None, None, None, [], {}, None, false)

  type Components = map<string, Schema>

  predicate IsLocalIn(spec: Components, s: Schema) {
    s.ref.Some? && s.ref.value.Local? && s.ref.value.name in spec
  }

  /** No chain of schemas that are themselves references comes back to itself. */
  ghost predicate AliasesEnd(spec: Components, rank: string -> nat) {
    forall name :: name in spec && IsLocalIn(spec, spec[name]) ==> rank(spec[name].ref.value.name) < rank(name)
  }

  ghost function AliasRank(spec: Components, rank: string -> nat, s: Schema): nat {
    if IsLocalIn(spec, s) then rank(s.ref.value.name) + 1 else 0
  }

  ghost function Resolve(spec: Components, rank: string -> nat, s: Schema): Schema
    requires AliasesEnd(spec, rank)
    decreases AliasRank(spec, rank, s)
  {
    if s.ref.Some? && s.ref.value.Local? then
      if s.ref.value.name in spec then Resolve(spec, rank, spec[s.ref.value.name]) else EMPTY
    else s
  }

  method ResolvedSchema(spec: Components, ghost rank: string -> nat, schema: Schema) returns (r: Schema)
    requires AliasesEnd(spec, rank)
    ensures r == Resolve(spec, rank, schema) && ResolvesTo(spec, schema, r)
    ensures !(r.ref.Some? && r.ref.value.Local?)
  {
    ResolvesToExactly(spec, rank, schema, Resolve(spec, rank, schema));
    r := schema;
    while r.ref.Some? && r.ref.value.Local?
      invariant Resolve(spec, rank, r) == Resolve(spec, rank, schema)
      decreases AliasRank(spec, rank, r), r.ref.Some? && r.ref.value.Local?
    {
      r := if r.ref.value.name in spec then spec[r.ref.value.name] else EMPTY;
    }
  }

  // ---------------------------------------------------------------------------
  // What resolving means: following stored schemas, one after the other.
  // ---------------------------------------------------------------------------

  predicate IsLocal(s: Schema) {
    s.ref.Some? && s.ref.value.Local?
  }

  /** Each schema but the last is a local reference to the next. */
  ghost predicate IsChain(spec: Components, chain: seq<Schema>) {
    && chain != []
    && forall i :: 0 <= i < |chain| - 1 ==>
      IsLocal(chain[i]) && chain[i].ref.value.name in spec && chain[i + 1] == spec[chain[i].ref.value.name]
  }

  /** A chain from a schema ends at the result, or at a reference to nothing, which
      counts as the empty schema. */
  ghost predicate EndsAt(spec: Components, chain: seq<Schema>, s: Schema, r: Schema) {
    && IsChain(spec, chain) && chain[0] == s
    && var last := chain[|chain| - 1];
       if IsLocal(last) then last.ref.value.name !in spec && r == EMPTY else r == last
  }

  ghost predicate ResolvesTo(spec: Components, s: Schema, r: Schema) {
    exists chain :: EndsAt(spec, chain, s, r)
  }

  lemma LongerChain(spec: Components, chain: seq<Schema>, s: Schema, r: Schema)
    requires IsLocalIn(spec, s) && EndsAt(spec, chain, spec[s.ref.value.name], r)
    ensures EndsAt(spec, [s] + chain, s, r)
  {
    var longer := [s] + chain;
    forall i | 0 <= i < |longer| - 1
      ensures IsLocal(longer[i]) && longer[i].ref.value.name in spec && longer[i + 1] == spec[longer[i].ref.value.name]
    {
      if i > 0 {
        assert longer[i] == chain[i - 1] && longer[i + 1] == chain[i];
      }
    }
  }

  lemma ChainStarts(spec: Components, chain: seq<Schema>)
    requires IsChain(spec, chain)
    ensures |chain| > 1 ==> IsLocalIn(spec, chain[0]) && chain[1] == spec[chain[0].ref.value.name]
  {
  }

  lemma ShorterChain(spec: Components, chain: seq<Schema>, s: Schema, r: Schema)
    requires IsLocalIn(spec, s) && EndsAt(spec, chain, s, r)
    ensures |chain| > 1 && EndsAt(spec, chain[1..], spec[s.ref.value.name], r)
  {
    ChainStarts(spec, chain);
    var rest := chain[1..];
    forall i | 0 <= i < |rest| - 1
      ensures IsLocal(rest[i]) && rest[i].ref.value.name in spec && rest[i + 1] == spec[rest[i].ref.value.name]
    {
      assert rest[i] == chain[i + 1] && rest[i + 1] == chain[i + 2];
    }
  }

  /** Resolving follows the chain of references to its end. */
  lemma {:induction false} ResolveEndsAChain(spec: Components, rank: string -> nat, s: Schema) returns (chain: seq<Schema>)
    requires AliasesEnd(spec, rank)
    ensures EndsAt(spec, chain, s, Resolve(spec, rank, s))
    decreases AliasRank(spec, rank, s)
  {
    if IsLocalIn(spec, s) {
      var rest := ResolveEndsAChain(spec, rank, spec[s.ref.value.name]);
      chain := [s] + rest;
      LongerChain(spec, rest, s, Resolve(spec, rank, s));
    } else {
      chain := [s];
    }
  }

  lemma {:induction false} ChainsEndAtResolve(spec: Components, rank: string -> nat, chain: seq<Schema>, s: Schema, r: Schema)
    requires AliasesEnd(spec, rank) && EndsAt(spec, chain, s, r)
    ensures r == Resolve(spec, rank, s)
    decreases |chain|
  {
    if IsLocalIn(spec, s) {
      ShorterChain(spec, chain, s, r);
      ChainsEndAtResolve(spec, rank, chain[1..], spec[s.ref.value.name], r);
    } else {
      ChainStarts(spec, chain);
    }
  }

  /** The resolved schema is the one that chains of references lead to. */
  lemma ResolvesToExactly(spec: Components, rank: string -> nat, s: Schema, r: Schema)
    requires AliasesEnd(spec, rank)
    ensures ResolvesTo(spec, s, r) <==> r == Resolve(spec, rank, s)
  {
    if r == Resolve(spec, rank, s) {
      var chain := ResolveEndsAChain(spec, rank, s);
    } else if ResolvesTo(spec, s, r) {
      var chain :| EndsAt(spec, chain, s, r);
      ChainsEndAtResolve(spec, rank, chain, s, r);
    }
  }

  /** Every local reference anywhere inside points to a schema of rank below `bound`. */
  ghost predicate Fits(spec: Components, rank: string -> nat, s: Schema, bound: nat)
    decreases s
  {
    && (IsLocalIn(spec, s) ==> rank(s.ref.value.name) < bound)
    && (forall i :: 0 <= i < |s.properties| ==> Fits(spec, rank, s.properties[i].schema, bound))
    && (s.items.Some? ==> Fits(spec, rank, s.items.value, bound))
  }

  /** A bound above every rank fits every schema. */
  lemma {:induction false} EverySchemaFits(spec: Components, rank: string -> nat, s: Schema, bound: nat)
    requires forall name :: name in spec ==> rank(name) < bound
    ensures Fits(spec, rank, s, bound)
    decreases s
  {
    forall i | 0 <= i < |s.properties|
      ensures Fits(spec, rank, s.properties[i].schema, bound)
    {
      EverySchemaFits(spec, rank, s.properties[i].schema, bound);
    }
    if s.items.Some? {
      EverySchemaFits(spec, rank, s.items.value, bound);
    }
  }

  /** The reference graph is acyclic: a rank exists that every reference lowers. */
  ghost predicate Acyclic(spec: Components, rank: string -> nat) {
    forall name :: name in spec ==> Fits(spec, rank, spec[name], rank(name))
  }

  lemma AcyclicAliasesEnd(spec: Components, rank: string -> nat)
    requires Acyclic(spec, rank)
    ensures AliasesEnd(spec, rank)
  {
  }

  /** How many schemas are written inside a schema, itself included. */
  ghost function Size(s: Schema): (n: nat)
    ensures n >= 1
    decreases s
  {
    1 + SizeOf(s, |s.properties|) + if s.items.Some? then Size(s.items.value) else 0
  }

  ghost function SizeOf(s: Schema, n: nat): nat
    requires n <= |s.properties|
    decreases s, n
  {
    if n == 0 then 0 else SizeOf(s, n - 1) + Size(s.properties[n - 1].schema)
  }

  lemma {:induction false} PropertyIsSmaller(s: Schema, i: nat, n: nat)
    requires i < n <= |s.properties|
    ensures Size(s.properties[i].schema) <= SizeOf(s, n)
    decreases n
  {
    if i < n - 1 {
      PropertyIsSmaller(s, i, n - 1);
    }
  }

  /** The bound under which a resolved schema's references lie. */
  ghost function ResolvedBound(spec: Components, rank: string -> nat, s: Schema, bound: nat): (b: nat)
    requires Acyclic(spec, rank) && Fits(spec, rank, s, bound)
    ensures AliasesEnd(spec, rank)
    ensures b <= bound && Fits(spec, rank, Resolve(spec, rank, s), b)
    ensures b == bound ==> Size(Resolve(spec, rank, s)) <= Size(s)
    decreases bound
  {
    AcyclicAliasesEnd(spec, rank);
    if IsLocalIn(spec, s) then
      ResolvedBound(spec, rank, spec[s.ref.value.name], rank(s.ref.value.name))
    else bound
  }

  // ---------------------------------------------------------------------------
  // Breaks at one place.
  // ---------------------------------------------------------------------------

  datatype Flaw =
    | TypeChanged(before: string, after: string)
    | ValuesRemoved(values: set<string>)
    | PropertyRemoved(name: string)
    | RequiredRemoved(names: set<string>)
    | MadeRequired(names: set<string>)

  datatype Step = Into(name: string) | Items

  datatype Break = Break(place: seq<Step>, flaw: Flaw)

  predicate HasProperty(s: Schema, name: string) {
    exists i :: 0 <= i < |s.properties| && s.properties[i].name == name
  }

  function Find(properties: seq<Property>, name: string): (s: Schema)
    requires exists i :: 0 <= i < |properties| && properties[i].name == name
    ensures exists i :: 0 <= i < |properties| && properties[i].name == name && properties[i].schema == s
  {
    if properties[0].name == name then properties[0].schema else Find(properties[1..], name)
  }

  /** An `items` keyword that is present and not the empty object. */
  predicate HasItems(s: Schema) {
    s.items.Some? && s.items.value != EMPTY
  }

  /** What is wrong between two resolved schemas, not looking inside them. */
  ghost predicate IsFlaw(before: Schema, after: Schema, flaw: Flaw) {
    match flaw
    case TypeChanged(x, y) => before.kind == Some(x) && after.kind == Some(y) && x != y
    case ValuesRemoved(gone) =>
      before.values.Some? && after.values.Some? && gone == before.values.value - after.values.value && gone != {}
    case PropertyRemoved(name) => HasProperty(before, name) && !HasProperty(after, name)
    case RequiredRemoved(names) => names == before.required - after.required && names != {}
    case MadeRequired(names) => names == after.required - before.required && names != {}
  }

  // ---------------------------------------------------------------------------
  // The recursive check.
  // ---------------------------------------------------------------------------

  function HeadFlaws(before: Schema, after: Schema): seq<Flaw> {
    (if before.kind.Some? && after.kind.Some? && before.kind.value != after.kind.value
     then [TypeChanged(before.kind.value, after.kind.value)] else [])
    + (if before.values.Some? && after.values.Some? && before.values.value - after.values.value != {}
       then [ValuesRemoved(before.values.value - after.values.value)] else [])
  }

  function RequiredFlaws(before: Schema, after: Schema): seq<Flaw> {
    (if before.required - after.required != {} then [RequiredRemoved(before.required - after.required)] else [])
    + (if after.required - before.required != {} then [MadeRequired(after.required - before.required)] else [])
  }

  function At(place: seq<Step>, flaws: seq<Flaw>): seq<Break> {
    seq(|flaws|, i requires 0 <= i < |flaws| => Break(place, flaws[i]))
  }

  /** Both documents, with the ranks that show their references end.  One of them must
      be acyclic, since a path is followed only while it exists in both; `byOld` says
      which. */
  datatype Pair = Pair(oldSpec: Components, oldRank: string -> nat, newSpec: Components, newRank: string -> nat, byOld: bool)

  ghost predicate ValidPair(p: Pair) {
    && AliasesEnd(p.oldSpec, p.oldRank) && AliasesEnd(p.newSpec, p.newRank)
    && if p.byOld then Acyclic(p.oldSpec, p.oldRank) else Acyclic(p.newSpec, p.newRank)
  }

  ghost predicate Bounded(p: Pair, before: Schema, after: Schema, bound: nat) {
    if p.byOld then Fits(p.oldSpec, p.oldRank, before, bound) else Fits(p.newSpec, p.newRank, after, bound)
  }

  /** The size of the schema that the recursion takes apart. */
  ghost function SideSize(p: Pair, before: Schema, after: Schema): nat {
    if p.byOld then Size(before) else Size(after)
  }

  ghost function Tightened(p: Pair, before: Schema, after: Schema, bound: nat): (b: nat)
    requires ValidPair(p) && Bounded(p, before, after, bound)
    ensures var x, y := Resolve(p.oldSpec, p.oldRank, before), Resolve(p.newSpec, p.newRank, after);
      Bounded(p, x, y, b) && b <= bound && (b == bound ==> SideSize(p, x, y) <= SideSize(p, before, after))
  {
    if p.byOld then ResolvedBound(p.oldSpec, p.oldRank, before, bound)
    else ResolvedBound(p.newSpec, p.newRank, after, bound)
  }

  lemma FoundIsSmaller(spec: Components, rank: string -> nat, s: Schema, bound: nat, name: string)
    requires Fits(spec, rank, s, bound) && HasProperty(s, name)
    ensures Fits(spec, rank, Find(s.properties, name), bound) && Size(Find(s.properties, name)) < Size(s)
  {
    var i :| 0 <= i < |s.properties| && s.properties[i].name == name && s.properties[i].schema == Find(s.properties, name);
    PropertyIsSmaller(s, i, |s.properties|);
  }

  /** Following a common property keeps the bound and shrinks the side. */
  lemma PropertyBelow(p: Pair, x: Schema, y: Schema, b: nat, name: string)
    requires Bounded(p, x, y, b) && HasProperty(x, name) && HasProperty(y, name)
    ensures var x', y' := Find(x.properties, name), Find(y.properties, name);
      Bounded(p, x', y', b) && SideSize(p, x', y') < SideSize(p, x, y)
  {
    if p.byOld {
      FoundIsSmaller(p.oldSpec, p.oldRank, x, b, name);
    } else {
      FoundIsSmaller(p.newSpec, p.newRank, y, b, name);
    }
  }

  lemma ItemsBelow(p: Pair, x: Schema, y: Schema, b: nat)
    requires Bounded(p, x, y, b) && HasItems(x) && HasItems(y)
    ensures Bounded(p, x.items.value, y.items.value, b) && SideSize(p, x.items.value, y.items.value) < SideSize(p, x, y)
  {
  }

  ghost function Breaks(p: Pair, before: Schema, after: Schema, bound: nat, place: seq<Step>): seq<Break>
    requires ValidPair(p) && Bounded(p, before, after, bound)
    decreases bound, SideSize(p, before, after)
  {
    var x, y := Resolve(p.oldSpec, p.oldRank, before), Resolve(p.newSpec, p.newRank, after);
    var b := Tightened(p, before, after, bound);
    At(place, HeadFlaws(x, y)) + PropertyBreaks(p, x, y, b, place, |x.properties|)
    + At(place, RequiredFlaws(x, y)) + ItemBreaks(p, x, y, b, place)
  }

  /** The breaks of one property of a resolved schema.  Names are unique in a JSON
      object, so a property is looked up by its name in both. */
  ghost function OneProperty(p: Pair, x: Schema, y: Schema, b: nat, place: seq<Step>, i: nat): seq<Break>
    requires ValidPair(p) && Bounded(p, x, y, b) && i < |x.properties|
    decreases b, SideSize(p, x, y), i
  {
    var name := x.properties[i].name;
    if !HasProperty(y, name) then [Break(place, PropertyRemoved(name))]
    else
      PropertyBelow(p, x, y, b, name);
      Breaks(p, Find(x.properties, name), Find(y.properties, name), b, place + [Into(name)])
  }

  /** The breaks of the first `n` properties. */
  ghost function PropertyBreaks(p: Pair, x: Schema, y: Schema, b: nat, place: seq<Step>, n: nat): seq<Break>
    requires ValidPair(p) && Bounded(p, x, y, b) && n <= |x.properties|
    decreases b, SideSize(p, x, y), n
  {
    if n == 0 then [] else PropertyBreaks(p, x, y, b, place, n - 1) + OneProperty(p, x, y, b, place, n - 1)
  }

  ghost function ItemBreaks(p: Pair, x: Schema, y: Schema, b: nat, place: seq<Step>): seq<Break>
    requires ValidPair(p) && Bounded(p, x, y, b)
    decreases b, SideSize(p, x, y), 0
  {
    if HasItems(x) && HasItems(y) then
      ItemsBelow(p, x, y, b);
      Breaks(p, x.items.value, y.items.value, b, place + [Items])
    else []
  }

  method SchemaBreaks(ghost p: Pair, oldSpec: Components, newSpec: Components, before: Schema, after: Schema,
                      ghost bound: nat, place: seq<Step>)
    returns (breaks: seq<Break>)
    requires ValidPair(p) && p.oldSpec == oldSpec && p.newSpec == newSpec && Bounded(p, before, after, bound)
    ensures breaks == Breaks(p, before, after, bound, place)
    decreases bound, SideSize(p, before, after)
  {
    var x := ResolvedSchema(oldSpec, p.oldRank, before);
    var y := ResolvedSchema(newSpec, p.newRank, after);
    ghost var b := Tightened(p, before, after, bound);
    var inside := EachProperty(p, oldSpec, newSpec, x, y, b, place);
    var below: seq<Break> := [];
    if HasItems(x) && HasItems(y) {
      ItemsBelow(p, x, y, b);
      below := SchemaBreaks(p, oldSpec, newSpec, x.items.value, y.items.value, b, place + [Items]);
    }
    breaks := At(place, HeadFlaws(x, y)) + inside + At(place, RequiredFlaws(x, y)) + below;
  }

  /** The loop over a resolved schema's properties. */
  method EachProperty(ghost p: Pair, oldSpec: Components, newSpec: Components, x: Schema, y: Schema,
                      ghost b: nat, place: seq<Step>)
    returns (breaks: seq<Break>)
    requires ValidPair(p) && p.oldSpec == oldSpec && p.newSpec == newSpec && Bounded(p, x, y, b)
    ensures breaks == PropertyBreaks(p, x, y, b, place, |x.properties|)
    decreases b, SideSize(p, x, y), 0
  {
    breaks := [];
    for i := 0 to |x.properties|
      invariant breaks == PropertyBreaks(p, x, y, b, place, i)
    {
      var name := x.properties[i].name;
      if !HasProperty(y, name) {
        breaks := breaks + [Break(place, PropertyRemoved(name))];
      } else {
        PropertyBelow(p, x, y, b, name);
        var inner := SchemaBreaks(p, oldSpec, newSpec, Find(x.properties, name), Find(y.properties, name), b,
          place + [Into(name)]);
        breaks := breaks + inner;
      }
    }
  }

  // ---------------------------------------------------------------------------
  // The check, seen from the documents: walk both along one path and compare.
  // ---------------------------------------------------------------------------

  datatype Couple = Couple(before: Schema, after: Schema)

  /** The resolved schemas that a path reaches in both documents, if it exists in
      both. */
  ghost function Walk(p: Pair, before: Schema, after: Schema, path: seq<Step>): Option<Couple>
    requires ValidPair(p)
    decreases |path|
  {
    var x, y := Resolve(p.oldSpec, p.oldRank, before), Resolve(p.newSpec, p.newRank, after);
    if path == [] then Some(Couple(x, y))
    else match path[0]
      case Into(name) =>
        if HasProperty(x, name) && HasProperty(y, name)
        then Walk(p, Find(x.properties, name), Find(y.properties, name), path[1..]) else None
      case Items =>
        if HasItems(x) && HasItems(y) then Walk(p, x.items.value, y.items.value, path[1..]) else None
  }

  /** A flaw at the end of a common path below a place. */
  ghost predicate FlawAlong(p: Pair, before: Schema, after: Schema, place: seq<Step>, broken: Break, path: seq<Step>)
    requires ValidPair(p)
  {
    && broken.place == place + path
    && Walk(p, before, after, path).Some?
    && IsFlaw(Walk(p, before, after, path).value.before, Walk(p, before, after, path).value.after, broken.flaw)
  }

  lemma FlawsHere(x: Schema, y: Schema, place: seq<Step>, broken: Break)
    ensures broken in At(place, HeadFlaws(x, y)) + At(place, RequiredFlaws(x, y))
      <==> broken.place == place && !broken.flaw.PropertyRemoved? && IsFlaw(x, y, broken.flaw)
  {
    var head, tail := HeadFlaws(x, y), RequiredFlaws(x, y);
    if broken.place == place && !broken.flaw.PropertyRemoved? && IsFlaw(x, y, broken.flaw) {
      assert broken.flaw in head + tail;
      if broken.flaw in head {
        var i :| 0 <= i < |head| && head[i] == broken.flaw;
        assert At(place, head)[i] == broken;
      } else {
        var i :| 0 <= i < |tail| && tail[i] == broken.flaw;
        assert At(place, tail)[i] == broken;
      }
    }
  }

  ghost predicate InProperty(p: Pair, x: Schema, y: Schema, b: nat, place: seq<Step>, i: nat, broken: Break)
    requires ValidPair(p) && Bounded(p, x, y, b)
  {
    i < |x.properties| && broken in OneProperty(p, x, y, b, place, i)
  }

  lemma {:induction false} InSomeProperty(p: Pair, x: Schema, y: Schema, b: nat, place: seq<Step>, n: nat, broken: Break)
    requires ValidPair(p) && Bounded(p, x, y, b) && n <= |x.properties|
    ensures broken in PropertyBreaks(p, x, y, b, place, n)
      <==> exists i: nat :: i < n && InProperty(p, x, y, b, place, i, broken)
    decreases n
  {
    if n > 0 {
      InSomeProperty(p, x, y, b, place, n - 1, broken);
      assert InProperty(p, x, y, b, place, n - 1, broken) <==> broken in OneProperty(p, x, y, b, place, n - 1);
    }
  }

  lemma InFour(a: seq<Break>, b: seq<Break>, c: seq<Break>, d: seq<Break>, x: Break)
    ensures x in a + b + c + d <==> x in a + c || x in b || x in d
  {
  }

  /** Where a reported break comes from. */
  lemma BreakCases(p: Pair, before: Schema, after: Schema, bound: nat, place: seq<Step>, broken: Break)
    requires ValidPair(p) && Bounded(p, before, after, bound)
    ensures var x, y := Resolve(p.oldSpec, p.oldRank, before), Resolve(p.newSpec, p.newRank, after);
      var b := Tightened(p, before, after, bound);
      broken in Breaks(p, before, after, bound, place) <==>
        || (broken.place == place && !broken.flaw.PropertyRemoved? && IsFlaw(x, y, broken.flaw))
        || broken in PropertyBreaks(p, x, y, b, place, |x.properties|)
        || broken in ItemBreaks(p, x, y, b, place)
  {
    var x, y := Resolve(p.oldSpec, p.oldRank, before), Resolve(p.newSpec, p.newRank, after);
    var b := Tightened(p, before, after, bound);
    FlawsHere(x, y, place, broken);
    InFour(At(place, HeadFlaws(x, y)), PropertyBreaks(p, x, y, b, place, |x.properties|),
      At(place, RequiredFlaws(x, y)), ItemBreaks(p, x, y, b, place), broken);
  }

  lemma StepPath(place: seq<Step>, step: Step, path: seq<Step>)
    ensures (place + [step]) + path == place + ([step] + path) && ([step] + path)[1..] == path
  {
  }

  /** A flaw below a step is a flaw along the longer path. */
  lemma FlawBelowStep(p: Pair, before: Schema, after: Schema, place: seq<Step>, broken: Break, step: Step, rest: seq<Step>,
                      inner: Schema, inner': Schema)
    requires ValidPair(p) && FlawAlong(p, inner, inner', place + [step], broken, rest)
    requires var x, y := Resolve(p.oldSpec, p.oldRank, before), Resolve(p.newSpec, p.newRank, after);
      match step
      case Into(name) => HasProperty(x, name) && HasProperty(y, name)
        && inner == Find(x.properties, name) && inner' == Find(y.properties, name)
      case Items => HasItems(x) && HasItems(y) && inner == x.items.value && inner' == y.items.value
    ensures FlawAlong(p, before, after, place, broken, [step] + rest)
  {
    StepPath(place, step, rest);
  }

  /** Every reported break is a flaw at the end of a path common to both documents. */
  lemma {:induction false} BreakIsFlaw(p: Pair, before: Schema, after: Schema, bound: nat, place: seq<Step>, broken: Break)
    returns (path: seq<Step>)
    requires ValidPair(p) && Bounded(p, before, after, bound)
    requires broken in Breaks(p, before, after, bound, place)
    ensures FlawAlong(p, before, after, place, broken, path)
    decreases bound, SideSize(p, before, after)
  {
    var x, y := Resolve(p.oldSpec, p.oldRank, before), Resolve(p.newSpec, p.newRank, after);
    var b := Tightened(p, before, after, bound);
    BreakCases(p, before, after, bound, place, broken);
    if broken.place == place && !broken.flaw.PropertyRemoved? && IsFlaw(x, y, broken.flaw) {
      path := [];
    } else if broken in ItemBreaks(p, x, y, b, place) {
      ItemsBelow(p, x, y, b);
      var rest := BreakIsFlaw(p, x.items.value, y.items.value, b, place + [Items], broken);
      path := [Items] + rest;
      FlawBelowStep(p, before, after, place, broken, Items, rest, x.items.value, y.items.value);
    } else {
      path := PropertyBreakIsFlaw(p, before, after, bound, place, broken);
    }
  }

  lemma {:induction false} PropertyBreakIsFlaw(p: Pair, before: Schema, after: Schema, bound: nat, place: seq<Step>, broken: Break)
    returns (path: seq<Step>)
    requires ValidPair(p) && Bounded(p, before, after, bound)
    requires var x, y := Resolve(p.oldSpec, p.oldRank, before), Resolve(p.newSpec, p.newRank, after);
      broken in PropertyBreaks(p, x, y, Tightened(p, before, after, bound), place, |x.properties|)
    ensures FlawAlong(p, before, after, place, broken, path)
    decreases bound, SideSize(p, before, after), 0
  {
    var x, y := Resolve(p.oldSpec, p.oldRank, before), Resolve(p.newSpec, p.newRank, after);
    var b := Tightened(p, before, after, bound);
    InSomeProperty(p, x, y, b, place, |x.properties|, broken);
    var i: nat :| i < |x.properties| && InProperty(p, x, y, b, place, i, broken);
    var name := x.properties[i].name;
    assert HasProperty(x, name);
    if HasProperty(y, name) {
      PropertyBelow(p, x, y, b, name);
      var inner, inner' := Find(x.properties, name), Find(y.properties, name);
      var rest := BreakIsFlaw(p, inner, inner', b, place + [Into(name)], broken);
      path := [Into(name)] + rest;
      FlawBelowStep(p, before, after, place, broken, Into(name), rest, inner, inner');
    } else {
      path := [];
    }
  }

  /** What one property reports is reported. */
  lemma InPropertyIsBreak(p: Pair, before: Schema, after: Schema, bound: nat, place: seq<Step>, broken: Break, i: nat)
    requires ValidPair(p) && Bounded(p, before, after, bound)
    requires var x, y := Resolve(p.oldSpec, p.oldRank, before), Resolve(p.newSpec, p.newRank, after);
      InProperty(p, x, y, Tightened(p, before, after, bound), place, i, broken)
    ensures broken in Breaks(p, before, after, bound, place)
  {
    var x, y := Resolve(p.oldSpec, p.oldRank, before), Resolve(p.newSpec, p.newRank, after);
    InSomeProperty(p, x, y, Tightened(p, before, after, bound), place, |x.properties|, broken);
    BreakCases(p, before, after, bound, place, broken);
  }

  lemma FlawHereIsBreak(p: Pair, before: Schema, after: Schema, bound: nat, place: seq<Step>, broken: Break)
    requires ValidPair(p) && Bounded(p, before, after, bound)
    requires FlawAlong(p, before, after, place, broken, [])
    ensures broken in Breaks(p, before, after, bound, place)
  {
    var x, y := Resolve(p.oldSpec, p.oldRank, before), Resolve(p.newSpec, p.newRank, after);
    assert broken.place == place;
    if broken.flaw.PropertyRemoved? {
      var i: nat :| i < |x.properties| && x.properties[i].name == broken.flaw.name;
      assert InProperty(p, x, y, Tightened(p, before, after, bound), place, i, broken);
      InPropertyIsBreak(p, before, after, bound, place, broken, i);
    } else {
      BreakCases(p, before, after, bound, place, broken);
    }
  }

  /** Every flaw at the end of a common path is reported. */
  lemma {:induction false} FlawIsBreak(p: Pair, before: Schema, after: Schema, bound: nat, place: seq<Step>, broken: Break, path: seq<Step>)
    requires ValidPair(p) && Bounded(p, before, after, bound)
    requires FlawAlong(p, before, after, place, broken, path)
    ensures broken in Breaks(p, before, after, bound, place)
    decreases |path|, 1
  {
    if path == [] {
      FlawHereIsBreak(p, before, after, bound, place, broken);
    } else {
      match path[0]
      case Items => FlawInItemsIsBreak(p, before, after, bound, place, broken, path);
      case Into(name) => FlawInPropertyIsBreak(p, before, after, bound, place, broken, path);
    }
  }

  lemma {:induction false} FlawInItemsIsBreak(p: Pair, before: Schema, after: Schema, bound: nat, place: seq<Step>, broken: Break, path: seq<Step>)
    requires ValidPair(p) && Bounded(p, before, after, bound) && path != [] && path[0].Items?
    requires FlawAlong(p, before, after, place, broken, path)
    ensures broken in Breaks(p, before, after, bound, place)
    decreases |path|, 0
  {
    var x, y := Resolve(p.oldSpec, p.oldRank, before), Resolve(p.newSpec, p.newRank, after);
    var b := Tightened(p, before, after, bound);
    assert path == [Items] + path[1..];
    StepPath(place, Items, path[1..]);
    ItemsBelow(p, x, y, b);
    FlawIsBreak(p, x.items.value, y.items.value, b, place + [Items], broken, path[1..]);
    BreakCases(p, before, after, bound, place, broken);
  }

  lemma {:induction false} FlawInPropertyIsBreak(p: Pair, before: Schema, after: Schema, bound: nat, place: seq<Step>, broken: Break, path: seq<Step>)
    requires ValidPair(p) && Bounded(p, before, after, bound) && path != [] && path[0].Into?
    requires FlawAlong(p, before, after, place, broken, path)
    ensures broken in Breaks(p, before, after, bound, place)
    decreases |path|, 0
  {
    var x, y := Resolve(p.oldSpec, p.oldRank, before), Resolve(p.newSpec, p.newRank, after);
    var b := Tightened(p, before, after, bound);
    var name := path[0].name;
    assert path == [Into(name)] + path[1..];
    StepPath(place, Into(name), path[1..]);
    PropertyBelow(p, x, y, b, name);
    FlawIsBreak(p, Find(x.properties, name), Find(y.properties, name), b, place + [Into(name)], broken, path[1..]);
    var i: nat :| i < |x.properties| && x.properties[i].name == name;
    assert InProperty(p, x, y, b, place, i, broken);
    InPropertyIsBreak(p, before, after, bound, place, broken, i);
  }

  /** Two schemas are compatible when no path common to both ends at a flaw. */
  ghost predicate Compatible(p: Pair, before: Schema, after: Schema)
    requires ValidPair(p)
  {
    forall path, flaw :: Walk(p, before, after, path).Some? ==>
      !IsFlaw(Walk(p, before, after, path).value.before, Walk(p, before, after, path).value.after, flaw)
  }

  /** The break list is empty exactly when the schemas are compatible. */
  lemma NoBreaksExactlyWhenCompatible(p: Pair, before: Schema, after: Schema, bound: nat, place: seq<Step>)
    requires ValidPair(p) && Bounded(p, before, after, bound)
    ensures Breaks(p, before, after, bound, place) == [] <==> Compatible(p, before, after)
  {
    var breaks := Breaks(p, before, after, bound, place);
    if breaks != [] {
      var path := BreakIsFlaw(p, before, after, bound, place, breaks[0]);
    } else if !Compatible(p, before, after) {
      var path, flaw :| Walk(p, before, after, path).Some? &&
        IsFlaw(Walk(p, before, after, path).value.before, Walk(p, before, after, path).value.after, flaw);
      FlawIsBreak(p, before, after, bound, place, Break(place + path, flaw), path);
    }
  }

  lemma {:induction false} WalkOnItself(p: Pair, s: Schema, path: seq<Step>)
    requires ValidPair(p) && p.oldSpec == p.newSpec && p.oldRank == p.newRank
    ensures Walk(p, s, s, path).Some? ==> Walk(p, s, s, path).value.before == Walk(p, s, s, path).value.after
    decreases |path|
  {
    if path != [] {
      var x := Resolve(p.oldSpec, p.oldRank, s);
      match path[0]
      case Items =>
        if HasItems(x) {
          WalkOnItself(p, x.items.value, path[1..]);
        }
      case Into(name) =>
        if HasProperty(x, name) {
          WalkOnItself(p, Find(x.properties, name), path[1..]);
        }
    }
  }

  /** A schema is compatible with itself. */
  lemma CompatibleWithItself(p: Pair, s: Schema)
    requires ValidPair(p) && p.oldSpec == p.newSpec && p.oldRank == p.newRank
    ensures Compatible(p, s, s)
  {
    forall path, flaw | Walk(p, s, s, path).Some?
      ensures !IsFlaw(Walk(p, s, s, path).value.before, Walk(p, s, s, path).value.after, flaw)
    {
      WalkOnItself(p, s, path);
    }
  }

  // ---------------------------------------------------------------------------
  // Walking one document along a path.
  // ---------------------------------------------------------------------------

  /** The entry that an object holds under a name. */
  ghost predicate IsEntry(properties: seq<Property>, name: string, i: int) {
    0 <= i < |properties| && properties[i].name == name && forall j :: 0 <= j < i ==> properties[j].name != name
  }

  /** A path leads from a schema to a resolved one: resolve, step into the named entry
      or the items, and so on. */
  ghost predicate Reaches(spec: Components, s: Schema, path: seq<Step>, r: Schema)
    decreases |path|
  {
    exists x :: ResolvesTo(spec, s, x) && StepReaches(spec, x, path, r)
  }

  ghost predicate StepReaches(spec: Components, x: Schema, path: seq<Step>, r: Schema)
    decreases |path|, 0
  {
    if path == [] then r == x
    else match path[0]
      case Into(name) => exists i :: IsEntry(x.properties, name, i) && Reaches(spec, x.properties[i].schema, path[1..], r)
      case Items => x.items.Some? && x.items.value != EMPTY && Reaches(spec, x.items.value, path[1..], r)
  }

  lemma {:induction false} FindIsEntry(properties: seq<Property>, name: string, i: int)
    requires IsEntry(properties, name, i)
    ensures (exists j :: 0 <= j < |properties| && properties[j].name == name) && Find(properties, name) == properties[i].schema
    decreases |properties|
  {
    if i > 0 {
      FindIsEntry(properties[1..], name, i - 1);
    }
  }

  lemma HasEntry(properties: seq<Property>, name: string) returns (i: nat)
    requires exists j :: 0 <= j < |properties| && properties[j].name == name
    ensures IsEntry(properties, name, i)
  {
    i := 0;
    while properties[i].name != name
      invariant i < |properties| && forall j :: 0 <= j < i ==> properties[j].name != name
      decreases |properties| - i
    {
      i := i + 1;
    }
  }

  ghost function Follow(spec: Components, rank: string -> nat, s: Schema, path: seq<Step>): Option<Schema>
    requires AliasesEnd(spec, rank)
    decreases |path|
  {
    var x := Resolve(spec, rank, s);
    if path == [] then Some(x)
    else match path[0]
      case Into(name) => if HasProperty(x, name) then Follow(spec, rank, Find(x.properties, name), path[1..]) else None
      case Items => if HasItems(x) then Follow(spec, rank, x.items.value, path[1..]) else None
  }

  lemma {:induction false} FollowReaches(spec: Components, rank: string -> nat, s: Schema, path: seq<Step>)
    requires AliasesEnd(spec, rank) && Follow(spec, rank, s, path).Some?
    ensures Reaches(spec, s, path, Follow(spec, rank, s, path).value)
    decreases |path|
  {
    var x, r := Resolve(spec, rank, s), Follow(spec, rank, s, path).value;
    ResolvesToExactly(spec, rank, s, x);
    if path != [] {
      match path[0]
      case Items => FollowReaches(spec, rank, x.items.value, path[1..]);
      case Into(name) =>
        var i := HasEntry(x.properties, name);
        FindIsEntry(x.properties, name, i);
        FollowReaches(spec, rank, x.properties[i].schema, path[1..]);
    }
    assert StepReaches(spec, x, path, r);
  }

  lemma {:induction false} ReachesFollows(spec: Components, rank: string -> nat, s: Schema, path: seq<Step>, r: Schema)
    requires AliasesEnd(spec, rank) && Reaches(spec, s, path, r)
    ensures Follow(spec, rank, s, path) == Some(r)
    decreases |path|
  {
    var x :| ResolvesTo(spec, s, x) && StepReaches(spec, x, path, r);
    ResolvesToExactly(spec, rank, s, x);
    if path != [] {
      match path[0]
      case Items => ReachesFollows(spec, rank, x.items.value, path[1..], r);
      case Into(name) =>
        var i :| IsEntry(x.properties, name, i) && Reaches(spec, x.properties[i].schema, path[1..], r);
        FindIsEntry(x.properties, name, i);
        ReachesFollows(spec, rank, x.properties[i].schema, path[1..], r);
    }
  }

  lemma {:induction false} WalkFollowsBoth(p: Pair, before: Schema, after: Schema, path: seq<Step>)
    requires ValidPair(p)
    ensures var x, y := Follow(p.oldSpec, p.oldRank, before, path), Follow(p.newSpec, p.newRank, after, path);
      Walk(p, before, after, path) == if x.Some? && y.Some? then Some(Couple(x.value, y.value)) else None
    decreases |path|
  {
    if path != [] {
      var x, y := Resolve(p.oldSpec, p.oldRank, before), Resolve(p.newSpec, p.newRank, after);
      match path[0]
      case Items =>
        if HasItems(x) && HasItems(y) {
          WalkFollowsBoth(p, x.items.value, y.items.value, path[1..]);
        }
      case Into(name) =>
        if HasProperty(x, name) && HasProperty(y, name) {
          WalkFollowsBoth(p, Find(x.properties, name), Find(y.properties, name), path[1..]);
        }
    }
  }

  /** What is compared along a path is what the path reaches in each document. */
  lemma WalkReachesBoth(p: Pair, before: Schema, after: Schema, path: seq<Step>, x: Schema, y: Schema)
    requires ValidPair(p)
    ensures Walk(p, before, after, path) == Some(Couple(x, y)) <==>
      Reaches(p.oldSpec, before, path, x) && Reaches(p.newSpec, after, path, y)
  {
    WalkFollowsBoth(p, before, after, path);
    if Walk(p, before, after, path) == Some(Couple(x, y)) {
      FollowReaches(p.oldSpec, p.oldRank, before, path);
      FollowReaches(p.newSpec, p.newRank, after, path);
    }
    if Reaches(p.oldSpec, before, path, x) && Reaches(p.newSpec, after, path, y) {
      ReachesFollows(p.oldSpec, p.oldRank, before, path, x);
      ReachesFollows(p.newSpec, p.newRank, after, path, y);
    }
  }

  /** Two resolved schemas agree: types that both give are equal, enumerations that both
      give lose no value, no property is gone, and the same properties are required. */
  ghost predicate Agree(x: Schema, y: Schema) {
    && (x.kind.Some? && y.kind.Some? ==> x.kind.value == y.kind.value)
    && (x.values.Some? && y.values.Some? ==> x.values.value <= y.values.value)
    && (forall i :: 0 <= i < |x.properties| ==> HasProperty(y, x.properties[i].name))
    && x.required == y.required
  }

  lemma NothingMissing(a: set<string>, b: set<string>)
    ensures a - b == {} <==> a <= b
  {
    if a - b == {} {
      forall x | x in a
        ensures x in b
      {
        assert x !in a - b;
      }
    }
  }

  lemma NoFlawMeansAgree(x: Schema, y: Schema)
    requires forall flaw :: !IsFlaw(x, y, flaw)
    ensures Agree(x, y)
  {
    assert x.kind.Some? && y.kind.Some? ==> !IsFlaw(x, y, TypeChanged(x.kind.value, y.kind.value));
    if x.values.Some? && y.values.Some? {
      assert !IsFlaw(x, y, ValuesRemoved(x.values.value - y.values.value));
      NothingMissing(x.values.value, y.values.value);
    }
    forall i | 0 <= i < |x.properties|
      ensures HasProperty(y, x.properties[i].name)
    {
      assert HasProperty(x, x.properties[i].name) && !IsFlaw(x, y, PropertyRemoved(x.properties[i].name));
    }
    assert !IsFlaw(x, y, RequiredRemoved(x.required - y.required)) && !IsFlaw(x, y, MadeRequired(y.required - x.required));
    NothingMissing(x.required, y.required);
    NothingMissing(y.required, x.required);
    assert x.required == y.required;
  }

  lemma NoFlawExactlyWhenAgree(x: Schema, y: Schema)
    ensures (forall flaw :: !IsFlaw(x, y, flaw)) <==> Agree(x, y)
  {
    if forall flaw :: !IsFlaw(x, y, flaw) {
      NoFlawMeansAgree(x, y);
    }
  }

  ghost predicate Disagree(p: Pair, before: Schema, after: Schema, path: seq<Step>, x: Schema, y: Schema) {
    Reaches(p.oldSpec, before, path, x) && Reaches(p.newSpec, after, path, y) && !Agree(x, y)
  }

  /** The break list is empty exactly when every path that exists in both documents
      reaches two schemas that agree, each document being followed on its own. */
  lemma NoBreaksExactlyWhenAllAgree(p: Pair, before: Schema, after: Schema, bound: nat, place: seq<Step>)
    requires ValidPair(p) && Bounded(p, before, after, bound)
    ensures Breaks(p, before, after, bound, place) == [] <==> forall path, x, y :: !Disagree(p, before, after, path, x, y)
  {
    NoBreaksExactlyWhenCompatible(p, before, after, bound, place);
    if !Compatible(p, before, after) {
      var path, flaw :| Walk(p, before, after, path).Some? &&
        IsFlaw(Walk(p, before, after, path).value.before, Walk(p, before, after, path).value.after, flaw);
      var end := Walk(p, before, after, path).value;
      WalkReachesBoth(p, before, after, path, end.before, end.after);
      NoFlawExactlyWhenAgree(end.before, end.after);
      assert Disagree(p, before, after, path, end.before, end.after);
    } else {
      forall path, x, y
        ensures !Disagree(p, before, after, path, x, y)
      {
        WalkReachesBoth(p, before, after, path, x, y);
        NoFlawExactlyWhenAgree(x, y);
      }
    }
  }

  // ---------------------------------------------------------------------------
  // A change behind a reference.
  // ---------------------------------------------------------------------------

  function Typed(kind: string): Schema {
    EMPTY.(kind := Some(kind))
  }

  const TO_A := EMPTY.(ref := Some(Local("A")))

  /** Both documents refer to `A`, a string in the old one and an integer in the new. */
  const RETYPED := Pair(map["A" := Typed("string")], (name: string) => 0, map["A" := Typed("integer")], (name: string) => 0, true)

  lemma RetypedIsReported()
    ensures ValidPair(RETYPED) && Bounded(RETYPED, TO_A, TO_A, 1)
    ensures Breaks(RETYPED, TO_A, TO_A, 1, []) == [Break([], TypeChanged("string", "integer"))]
  {
    var x, y := Typed("string"), Typed("integer");
    assert Fits(RETYPED.oldSpec, RETYPED.oldRank, x, 0) && Fits(RETYPED.oldSpec, RETYPED.oldRank, TO_A, 1);
    assert Acyclic(RETYPED.oldSpec, RETYPED.oldRank);
    assert "string"[1] == 't' && "integer"[1] == 'n';
    assert Resolve(RETYPED.oldSpec, RETYPED.oldRank, TO_A) == x && Resolve(RETYPED.newSpec, RETYPED.newRank, TO_A) == y;
    assert HeadFlaws(x, y) == [TypeChanged("string", "integer")] && RequiredFlaws(x, y) == [];
  }
}
