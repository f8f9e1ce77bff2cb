/** Whole documents: operations, parameters, request bodies and responses
    (scripts/check_openapi.py, `compatibility_breaks`).

    The source visits keys in sorted order; here any order is allowed, and what is
    stated is exactly which breaks the list holds. */
module OpenApiGate {
  import opened Results
  import opened OpenApi

  datatype Parameter = Parameter(required: bool, schema: Schema)

  /** A body's schema is that of its first media type, or the empty schema. */
  datatype Body = Body(required: bool, schema: Schema)

  /** Parameters are keyed by place and name, responses by status. */
  datatype Operation = Operation(parameters: map<(string, string), Parameter>, body: Option<Body>, responses: map<string, Schema>)

  /** Operations are keyed by path and method. */
  datatype Document = Document(components: Components, operations: map<(string, string), Operation>)

  datatype Where = InParameter(key: (string, string)) | InBody | InResponse(status: string)

  datatype ApiBreak =
    | OperationRemoved(op: (string, string))
    | ParameterRemoved(op: (string, string), key: (string, string))
    | NewRequiredParameter(op: (string, string), key: (string, string))
    | ParameterNotRequired(op: (string, string), key: (string, string))
    | BodyRemoved(op: (string, string))
    | BodyNotRequired(op: (string, string))
    | ResponseRemoved(op: (string, string), status: string)
    | SchemaBreak(op: (string, string), place: Where, broken: Break)

  /** Every pair of schemas that the gate compares lies under one bound. */
  ghost predicate OperationFits(p: Pair, o: Operation, n: Operation, top: nat) {
    && (forall k :: k in o.parameters && k in n.parameters ==> Bounded(p, o.parameters[k].schema, n.parameters[k].schema, top))
    && (o.body.Some? && n.body.Some? ==> Bounded(p, o.body.value.schema, n.body.value.schema, top))
    && (forall k :: k in o.responses && k in n.responses ==> Bounded(p, o.responses[k], n.responses[k], top))
  }

  ghost predicate DocumentFits(p: Pair, previous: Document, current: Document, top: nat) {
    forall k :: k in previous.operations && k in current.operations ==>
      OperationFits(p, previous.operations[k], current.operations[k], top)
  }

  /** A bound above every rank of the acyclic document fits any two documents. */
  lemma EveryDocumentFits(p: Pair, previous: Document, current: Document, top: nat)
    requires p.byOld ==> forall name :: name in p.oldSpec ==> p.oldRank(name) < top
    requires !p.byOld ==> forall name :: name in p.newSpec ==> p.newRank(name) < top
    ensures DocumentFits(p, previous, current, top)
  {
    forall before: Schema, after: Schema
      ensures Bounded(p, before, after, top)
    {
      if p.byOld {
        EverySchemaFits(p.oldSpec, p.oldRank, before, top);
      } else {
        EverySchemaFits(p.newSpec, p.newRank, after, top);
      }
    }
  }

  // ---------------------------------------------------------------------------
  // What counts as a break.
  // ---------------------------------------------------------------------------

  ghost predicate SchemaFlaw(p: Pair, before: Schema, after: Schema, broken: Break)
    requires ValidPair(p)
  {
    exists path :: FlawAlong(p, before, after, [], broken, path)
  }

  ghost predicate IsParameterBreak(p: Pair, op: (string, string), o: Operation, n: Operation, k: (string, string), b: ApiBreak)
    requires ValidPair(p)
  {
    if k in o.parameters && k !in n.parameters then b == ParameterRemoved(op, k)
    else if k !in o.parameters && k in n.parameters then n.parameters[k].required && b == NewRequiredParameter(op, k)
    else if k in o.parameters && k in n.parameters then
      || (o.parameters[k].required && !n.parameters[k].required && b == ParameterNotRequired(op, k))
      || (b.SchemaBreak? && b.op == op && b.place == InParameter(k)
          && SchemaFlaw(p, o.parameters[k].schema, n.parameters[k].schema, b.broken))
    else false
  }

  ghost predicate IsBodyBreak(p: Pair, op: (string, string), o: Operation, n: Operation, b: ApiBreak)
    requires ValidPair(p)
  {
    if o.body.Some? && n.body.None? then b == BodyRemoved(op)
    else if o.body.Some? && n.body.Some? then
      || (o.body.value.required && !n.body.value.required && b == BodyNotRequired(op))
      || (b.SchemaBreak? && b.op == op && b.place == InBody && SchemaFlaw(p, o.body.value.schema, n.body.value.schema, b.broken))
    else false
  }

  ghost predicate IsResponseBreak(p: Pair, op: (string, string), o: Operation, n: Operation, k: string, b: ApiBreak)
    requires ValidPair(p)
  {
    if k in o.responses && k !in n.responses then b == ResponseRemoved(op, k)
    else if k in o.responses && k in n.responses then
      b.SchemaBreak? && b.op == op && b.place == InResponse(k) && SchemaFlaw(p, o.responses[k], n.responses[k], b.broken)
    else false
  }

  ghost predicate IsOperationBreak(p: Pair, op: (string, string), o: Operation, n: Operation, b: ApiBreak)
    requires ValidPair(p)
  {
    || (exists k :: IsParameterBreak(p, op, o, n, k, b))
    || IsBodyBreak(p, op, o, n, b)
    || (exists k :: IsResponseBreak(p, op, o, n, k, b))
  }

  ghost predicate IsBreakAt(p: Pair, previous: Document, current: Document, op: (string, string), b: ApiBreak)
    requires ValidPair(p)
  {
    if op in previous.operations && op !in current.operations then b == OperationRemoved(op)
    else if op in previous.operations then IsOperationBreak(p, op, previous.operations[op], current.operations[op], b)
    else false
  }

  ghost predicate IsApiBreak(p: Pair, previous: Document, current: Document, b: ApiBreak)
    requires ValidPair(p)
  {
    exists op :: IsBreakAt(p, previous, current, op, b)
  }

  // ---------------------------------------------------------------------------
  // The loops.
  // ---------------------------------------------------------------------------

  function Tag(op: (string, string), place: Where, breaks: seq<Break>): (r: seq<ApiBreak>)
    ensures forall b :: b in r <==> b.SchemaBreak? && b.op == op && b.place == place && b.broken in breaks
  {
    var r := seq(|breaks|, i requires 0 <= i < |breaks| => SchemaBreak(op, place, breaks[i]));
    assert forall b: ApiBreak :: b.SchemaBreak? && b.op == op && b.place == place && b.broken in breaks ==> b in r by {
      forall b: ApiBreak | b.SchemaBreak? && b.op == op && b.place == place && b.broken in breaks
        ensures b in r
      {
        var i :| 0 <= i < |breaks| && breaks[i] == b.broken;
        assert r[i] == b;
      }
    }
    r
  }

  method TaggedBreaks(ghost p: Pair, oldSpec: Components, newSpec: Components, before: Schema, after: Schema, ghost top: nat,
                      op: (string, string), place: Where)
    returns (r: seq<ApiBreak>)
    requires ValidPair(p) && p.oldSpec == oldSpec && p.newSpec == newSpec && Bounded(p, before, after, top)
    ensures forall b :: b in r <==> b.SchemaBreak? && b.op == op && b.place == place && SchemaFlaw(p, before, after, b.broken)
  {
    var breaks := SchemaBreaks(p, oldSpec, newSpec, before, after, top, []);
    r := Tag(op, place, breaks);
    forall broken: Break
      ensures broken in breaks <==> SchemaFlaw(p, before, after, broken)
    {
      BreaksAreTheFlaws(p, before, after, top, broken);
    }
  }

  lemma BreaksAreTheFlaws(p: Pair, before: Schema, after: Schema, top: nat, broken: Break)
    requires ValidPair(p) && Bounded(p, before, after, top)
    ensures broken in Breaks(p, before, after, top, []) <==> SchemaFlaw(p, before, after, broken)
  {
    if broken in Breaks(p, before, after, top, []) {
      var path := BreakIsFlaw(p, before, after, top, [], broken);
    } else if SchemaFlaw(p, before, after, broken) {
      var path :| FlawAlong(p, before, after, [], broken, path);
      FlawIsBreak(p, before, after, top, [], broken, path);
    }
  }

  method ParameterBreaks(ghost p: Pair, oldSpec: Components, newSpec: Components, ghost top: nat,
                         op: (string, string), o: Operation, n: Operation, k: (string, string))
    returns (breaks: seq<ApiBreak>)
    requires ValidPair(p) && p.oldSpec == oldSpec && p.newSpec == newSpec && OperationFits(p, o, n, top)
    ensures forall b :: b in breaks <==> IsParameterBreak(p, op, o, n, k, b)
  {
    breaks := [];
    if k in o.parameters && k !in n.parameters {
      breaks := [ParameterRemoved(op, k)];
    } else if k !in o.parameters && k in n.parameters {
      if n.parameters[k].required {
        breaks := [NewRequiredParameter(op, k)];
      }
    } else if k in o.parameters {
      if o.parameters[k].required && !n.parameters[k].required {
        breaks := [ParameterNotRequired(op, k)];
      }
      var inner := TaggedBreaks(p, oldSpec, newSpec, o.parameters[k].schema, n.parameters[k].schema, top, op, InParameter(k));
      breaks := breaks + inner;
    }
  }

  method BodyBreaks(ghost p: Pair, oldSpec: Components, newSpec: Components, ghost top: nat,
                    op: (string, string), o: Operation, n: Operation)
    returns (breaks: seq<ApiBreak>)
    requires ValidPair(p) && p.oldSpec == oldSpec && p.newSpec == newSpec && OperationFits(p, o, n, top)
    ensures forall b :: b in breaks <==> IsBodyBreak(p, op, o, n, b)
  {
    breaks := [];
    if o.body.Some? && n.body.None? {
      breaks := [BodyRemoved(op)];
    } else if o.body.Some? {
      if o.body.value.required && !n.body.value.required {
        breaks := [BodyNotRequired(op)];
      }
      var inner := TaggedBreaks(p, oldSpec, newSpec, o.body.value.schema, n.body.value.schema, top, op, InBody);
      breaks := breaks + inner;
    }
  }

  method ResponseBreaks(ghost p: Pair, oldSpec: Components, newSpec: Components, ghost top: nat,
                        op: (string, string), o: Operation, n: Operation, k: string)
    returns (breaks: seq<ApiBreak>)
    requires ValidPair(p) && p.oldSpec == oldSpec && p.newSpec == newSpec && OperationFits(p, o, n, top)
    ensures forall b :: b in breaks <==> IsResponseBreak(p, op, o, n, k, b)
  {
    breaks := [];
    if k in o.responses && k !in n.responses {
      breaks := [ResponseRemoved(op, k)];
    } else if k in o.responses {
      breaks := TaggedBreaks(p, oldSpec, newSpec, o.responses[k], n.responses[k], top, op, InResponse(k));
    }
  }

  method AllParameterBreaks(ghost p: Pair, oldSpec: Components, newSpec: Components, ghost top: nat,
                            op: (string, string), o: Operation, n: Operation)
    returns (breaks: seq<ApiBreak>)
    requires ValidPair(p) && p.oldSpec == oldSpec && p.newSpec == newSpec && OperationFits(p, o, n, top)
    ensures forall b :: b in breaks <==> exists k :: IsParameterBreak(p, op, o, n, k, b)
  {
    breaks := [];
    var keys := o.parameters.Keys + n.parameters.Keys;
    var rest := keys;
    while rest != {}
      invariant rest <= keys
      invariant forall b :: b in breaks <==> exists k :: k in keys && k !in rest && IsParameterBreak(p, op, o, n, k, b)
      decreases |rest|
    {
      var k :| k in rest;
      var inner := ParameterBreaks(p, oldSpec, newSpec, top, op, o, n, k);
      breaks := breaks + inner;
      rest := rest - {k};
    }
  }

  method AllResponseBreaks(ghost p: Pair, oldSpec: Components, newSpec: Components, ghost top: nat,
                           op: (string, string), o: Operation, n: Operation)
    returns (breaks: seq<ApiBreak>)
    requires ValidPair(p) && p.oldSpec == oldSpec && p.newSpec == newSpec && OperationFits(p, o, n, top)
    ensures forall b :: b in breaks <==> exists k :: IsResponseBreak(p, op, o, n, k, b)
  {
    breaks := [];
    var rest := o.responses.Keys;
    while rest != {}
      invariant rest <= o.responses.Keys
      invariant forall b :: b in breaks <==>
        exists k :: k in o.responses.Keys && k !in rest && IsResponseBreak(p, op, o, n, k, b)
      decreases |rest|
    {
      var k :| k in rest;
      var inner := ResponseBreaks(p, oldSpec, newSpec, top, op, o, n, k);
      breaks := breaks + inner;
      rest := rest - {k};
    }
  }

  method OperationBreaks(ghost p: Pair, oldSpec: Components, newSpec: Components, ghost top: nat,
                         op: (string, string), o: Operation, n: Operation)
    returns (breaks: seq<ApiBreak>)
    requires ValidPair(p) && p.oldSpec == oldSpec && p.newSpec == newSpec && OperationFits(p, o, n, top)
    ensures forall b :: b in breaks <==> IsOperationBreak(p, op, o, n, b)
  {
    var parameters := AllParameterBreaks(p, oldSpec, newSpec, top, op, o, n);
    var body := BodyBreaks(p, oldSpec, newSpec, top, op, o, n);
    var responses := AllResponseBreaks(p, oldSpec, newSpec, top, op, o, n);
    breaks := parameters + body + responses;
  }

  /** The list holds exactly the breaks between the two documents. */
  method CompatibilityBreaks(previous: Document, current: Document, ghost p: Pair, ghost top: nat) returns (breaks: seq<ApiBreak>)
    requires ValidPair(p) && p.oldSpec == previous.components && p.newSpec == current.components && DocumentFits(p, previous, current, top)
    ensures forall b :: b in breaks <==> IsApiBreak(p, previous, current, b)
  {
    breaks := [];
    var rest := previous.operations.Keys;
    while rest != {}
      invariant rest <= previous.operations.Keys
      invariant forall b :: b in breaks <==>
        exists op :: op in previous.operations.Keys && op !in rest && IsBreakAt(p, previous, current, op, b)
      decreases |rest|
    {
      var op :| op in rest;
      var inner: seq<ApiBreak>;
      if op !in current.operations {
        inner := [OperationRemoved(op)];
      } else {
        inner := OperationBreaks(p, previous.components, current.components, top, op, previous.operations[op], current.operations[op]);
      }
      assert forall b :: b in inner <==> IsBreakAt(p, previous, current, op, b);
      breaks := breaks + inner;
      rest := rest - {op};
    }
  }

  // ---------------------------------------------------------------------------
  // Compatibility of documents.
  // ---------------------------------------------------------------------------

  ghost predicate ParameterCompatible(p: Pair, o: Parameter, n: Parameter)
    requires ValidPair(p)
  {
    (o.required ==> n.required) && Compatible(p, o.schema, n.schema)
  }

  ghost predicate BodyCompatible(p: Pair, o: Body, n: Body)
    requires ValidPair(p)
  {
    (o.required ==> n.required) && Compatible(p, o.schema, n.schema)
  }

  ghost predicate OperationCompatible(p: Pair, o: Operation, n: Operation)
    requires ValidPair(p)
  {
    && (forall k :: k in o.parameters ==> k in n.parameters)
    && (forall k :: k in o.parameters && k in n.parameters ==> ParameterCompatible(p, o.parameters[k], n.parameters[k]))
    && (forall k :: k in n.parameters && k !in o.parameters ==> !n.parameters[k].required)
    && (o.body.Some? ==> n.body.Some?)
    && (o.body.Some? && n.body.Some? ==> BodyCompatible(p, o.body.value, n.body.value))
    && (forall k :: k in o.responses ==> k in n.responses && Compatible(p, o.responses[k], n.responses[k]))
  }

  /** Every old operation is still there, with parameters, body and responses that the
      gate takes for compatible.  A body that an operation newly requires passes. */
  ghost predicate ApiCompatible(p: Pair, previous: Document, current: Document)
    requires ValidPair(p)
  {
    forall op :: op in previous.operations ==>
      op in current.operations && OperationCompatible(p, previous.operations[op], current.operations[op])
  }

  lemma NoFlawExactlyWhenCompatible(p: Pair, before: Schema, after: Schema)
    requires ValidPair(p)
    ensures (forall broken :: !SchemaFlaw(p, before, after, broken)) <==> Compatible(p, before, after)
  {
    if !Compatible(p, before, after) {
      var path, flaw :| Walk(p, before, after, path).Some? &&
        IsFlaw(Walk(p, before, after, path).value.before, Walk(p, before, after, path).value.after, flaw);
      assert [] + path == path;
      assert FlawAlong(p, before, after, [], Break(path, flaw), path);
      assert SchemaFlaw(p, before, after, Break(path, flaw));
    }
  }

  lemma ParametersExactly(p: Pair, op: (string, string), o: Operation, n: Operation)
    requires ValidPair(p)
    ensures (forall k, b :: !IsParameterBreak(p, op, o, n, k, b)) <==>
      && (forall k :: k in o.parameters ==> k in n.parameters)
      && (forall k :: k in o.parameters && k in n.parameters ==> ParameterCompatible(p, o.parameters[k], n.parameters[k]))
      && (forall k :: k in n.parameters && k !in o.parameters ==> !n.parameters[k].required)
  {
    forall k: (string, string)
      ensures (forall b :: !IsParameterBreak(p, op, o, n, k, b)) <==>
        && (k in o.parameters ==> k in n.parameters)
        && (k in o.parameters && k in n.parameters ==> ParameterCompatible(p, o.parameters[k], n.parameters[k]))
        && (k in n.parameters && k !in o.parameters ==> !n.parameters[k].required)
    {
      OneParameterExactly(p, op, o, n, k);
    }
  }

  lemma OneParameterExactly(p: Pair, op: (string, string), o: Operation, n: Operation, k: (string, string))
    requires ValidPair(p)
    ensures (forall b :: !IsParameterBreak(p, op, o, n, k, b)) <==>
      && (k in o.parameters ==> k in n.parameters)
      && (k in o.parameters && k in n.parameters ==> ParameterCompatible(p, o.parameters[k], n.parameters[k]))
      && (k in n.parameters && k !in o.parameters ==> !n.parameters[k].required)
  {
    if k in o.parameters && k !in n.parameters {
      assert IsParameterBreak(p, op, o, n, k, ParameterRemoved(op, k));
    } else if k !in o.parameters && k in n.parameters {
      assert n.parameters[k].required ==> IsParameterBreak(p, op, o, n, k, NewRequiredParameter(op, k));
    } else if k in o.parameters {
      NoFlawExactlyWhenCompatible(p, o.parameters[k].schema, n.parameters[k].schema);
      assert IsParameterBreak(p, op, o, n, k, ParameterNotRequired(op, k)) <==> o.parameters[k].required && !n.parameters[k].required;
      forall broken: Break
        ensures SchemaFlaw(p, o.parameters[k].schema, n.parameters[k].schema, broken)
          <==> IsParameterBreak(p, op, o, n, k, SchemaBreak(op, InParameter(k), broken))
      {
      }
    }
  }

  lemma BodyExactly(p: Pair, op: (string, string), o: Operation, n: Operation)
    requires ValidPair(p)
    ensures (forall b :: !IsBodyBreak(p, op, o, n, b)) <==>
      && (o.body.Some? ==> n.body.Some?)
      && (o.body.Some? && n.body.Some? ==> BodyCompatible(p, o.body.value, n.body.value))
  {
    if o.body.Some? && n.body.None? {
      assert IsBodyBreak(p, op, o, n, BodyRemoved(op));
    } else if o.body.Some? {
      NoFlawExactlyWhenCompatible(p, o.body.value.schema, n.body.value.schema);
      assert IsBodyBreak(p, op, o, n, BodyNotRequired(op)) <==> o.body.value.required && !n.body.value.required;
      forall broken: Break
        ensures SchemaFlaw(p, o.body.value.schema, n.body.value.schema, broken)
          <==> IsBodyBreak(p, op, o, n, SchemaBreak(op, InBody, broken))
      {
      }
    }
  }

  lemma OneResponseExactly(p: Pair, op: (string, string), o: Operation, n: Operation, k: string)
    requires ValidPair(p)
    ensures (forall b :: !IsResponseBreak(p, op, o, n, k, b)) <==>
      (k in o.responses ==> k in n.responses && Compatible(p, o.responses[k], n.responses[k]))
  {
    if k in o.responses && k !in n.responses {
      assert IsResponseBreak(p, op, o, n, k, ResponseRemoved(op, k));
    } else if k in o.responses {
      NoFlawExactlyWhenCompatible(p, o.responses[k], n.responses[k]);
      forall broken: Break
        ensures SchemaFlaw(p, o.responses[k], n.responses[k], broken)
          <==> IsResponseBreak(p, op, o, n, k, SchemaBreak(op, InResponse(k), broken))
      {
      }
    }
  }

  lemma OperationExactly(p: Pair, op: (string, string), o: Operation, n: Operation)
    requires ValidPair(p)
    ensures (forall b :: !IsOperationBreak(p, op, o, n, b)) <==> OperationCompatible(p, o, n)
  {
    ParametersExactly(p, op, o, n);
    BodyExactly(p, op, o, n);
    forall k: string
      ensures (forall b :: !IsResponseBreak(p, op, o, n, k, b)) <==>
        (k in o.responses ==> k in n.responses && Compatible(p, o.responses[k], n.responses[k]))
    {
      OneResponseExactly(p, op, o, n, k);
    }
    if forall b :: !IsOperationBreak(p, op, o, n, b) {
      forall k, b
        ensures !IsParameterBreak(p, op, o, n, k, b)
      {
        assert !IsOperationBreak(p, op, o, n, b);
      }
      forall b
        ensures !IsBodyBreak(p, op, o, n, b)
      {
        assert !IsOperationBreak(p, op, o, n, b);
      }
      forall k, b
        ensures !IsResponseBreak(p, op, o, n, k, b)
      {
        assert !IsOperationBreak(p, op, o, n, b);
      }
    }
  }

  /** The gate passes exactly the compatible documents. */
  lemma GatePassesExactlyCompatible(p: Pair, previous: Document, current: Document)
    requires ValidPair(p)
    ensures (forall b :: !IsApiBreak(p, previous, current, b)) <==> ApiCompatible(p, previous, current)
  {
    forall op: (string, string)
      ensures (forall b :: !IsBreakAt(p, previous, current, op, b)) <==>
        (op in previous.operations ==>
          op in current.operations && OperationCompatible(p, previous.operations[op], current.operations[op]))
    {
      if op in previous.operations && op !in current.operations {
        assert IsBreakAt(p, previous, current, op, OperationRemoved(op));
      } else if op in previous.operations {
        OperationExactly(p, op, previous.operations[op], current.operations[op]);
        forall b: ApiBreak
          ensures IsBreakAt(p, previous, current, op, b)
            <==> IsOperationBreak(p, op, previous.operations[op], current.operations[op], b)
        {
        }
      }
    }
    if forall b :: !IsApiBreak(p, previous, current, b) {
      forall op, b
        ensures !IsBreakAt(p, previous, current, op, b)
      {
        assert !IsApiBreak(p, previous, current, b);
      }
    }
  }

  /** Any document compared with itself passes. */
  lemma DocumentMatchesItself(p: Pair, d: Document)
    requires ValidPair(p) && p.oldSpec == p.newSpec && p.oldRank == p.newRank
    ensures forall b :: !IsApiBreak(p, d, d, b)
  {
    forall s: Schema
      ensures Compatible(p, s, s)
    {
      CompatibleWithItself(p, s);
    }
    GatePassesExactlyCompatible(p, d, d);
  }
}
