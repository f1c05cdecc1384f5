/**
 * Klee's geometry operators and the dimensions they map between: each
 * operator starts in two or three dimensions and ends in two or three; a
 * composite operator applies a list of operators in order, so it starts
 * where its first operator starts and ends where its last one ends.
 * Visiting an operator calls the visitor's overload for the operator's own
 * kind, passing the operator itself.
 */
module KleeOperators {
  import opened Wrappers

  datatype Dimensions = Two | Three

  /** A point or vector of three coordinates. */
  datatype Triple = Triple(x: real, y: real, z: real)

  /**
   * The operators of fixed kind, and `Custom`: any other implementation
   * of the operator interface, which reports its own start and end
   * dimensions.
   */
  datatype Operator =
    | Translation(offset: Triple, dims: Dimensions)
    | Rotation(angle: real, center: Triple, axis: Triple, dims: Dimensions)
    | Scale(xFactor: real, yFactor: real, zFactor: real, dims: Dimensions)
    | ArbitraryMatrix(transformation: seq<seq<real>>, dims: Dimensions)
    | Slice(origin: Triple, normal: Triple, up: Triple)
    | Custom(start: Dimensions, end: Dimensions)
  {
    /**
     * The dimensions an operator starts in: the dimensions it was built
     * with, except that a slice starts in three dimensions.
     */
    function StartDims(): (d: Dimensions)
      ensures Slice? ==> d == Three
      ensures Custom? ==> d == start
      ensures !Slice? && !Custom? ==> d == dims
    {
      match this
      case Slice(_, _, _) => Three
      case Custom(s, _) => s
      case _ => dims
    }

    /**
     * The dimensions an operator ends in: the dimensions it was built
     * with, except that a slice ends in two dimensions.
     */
    function EndDims(): (d: Dimensions)
      ensures Slice? ==> d == Two
      ensures Custom? ==> d == end
      ensures !Slice? && !Custom? ==> d == dims
    {
      match this
      case Slice(_, _, _) => Two
      case Custom(_, e) => e
      case _ => dims
    }
  }

  /** A slice takes three dimensions to two, so it is the only fixed-kind operator that changes dimensions. */
  lemma OnlySliceChangesDimensions(op: Operator)
    requires !op.Custom?
    ensures op.StartDims() != op.EndDims() <==> op.Slice?
    ensures op.Slice? ==> op.StartDims() == Three && op.EndDims() == Two
  {
  }

  /** The dimensions an operator list starts in: its first operator's; an empty list is an error. */
  function ListStartDims(ops: seq<Operator>): (r: Result<Dimensions, string>)
    ensures r.Err? <==> |ops| == 0
    ensures r.Ok? ==> r.value == ops[0].StartDims()
  {
    if |ops| == 0 then Err("CompositeOperator: no operators") else Ok(ops[0].StartDims())
  }

  /** The dimensions an operator list ends in: its last operator's; an empty list is an error. */
  function ListEndDims(ops: seq<Operator>): (r: Result<Dimensions, string>)
    ensures r.Err? <==> |ops| == 0
    ensures r.Ok? ==> r.value == ops[|ops| - 1].EndDims()
  {
    if |ops| == 0 then Err("CompositeOperator: no operators") else Ok(ops[|ops| - 1].EndDims())
  }

  /**
   * Appending operators never changes where a non-empty list starts, and
   * the list then ends where the appended operators end.
   */
  lemma AppendDims(xs: seq<Operator>, ys: seq<Operator>)
    ensures |xs| > 0 ==> ListStartDims(xs + ys) == ListStartDims(xs)
    ensures |ys| > 0 ==> ListEndDims(xs + ys) == ListEndDims(ys)
    ensures |ys| == 0 ==> ListEndDims(xs + ys) == ListEndDims(xs)
  {
    if |xs| > 0 {
      assert (xs + ys)[0] == xs[0];
    }
    if |ys| > 0 {
      assert (xs + ys)[|xs + ys| - 1] == ys[|ys| - 1];
    }
    if |ys| == 0 {
      assert xs + ys == xs;
    }
  }

  /** An operator list that is one operator starts and ends where that operator does. */
  lemma SingletonDims(op: Operator)
    ensures ListStartDims([op]) == Ok(op.StartDims())
    ensures ListEndDims([op]) == Ok(op.EndDims())
  {
  }

  /**
   * The operators of a composite whose operators are themselves composites,
   * in the order they are applied: the inner lists one after the other.
   */
  function Flatten(lists: seq<seq<Operator>>): seq<Operator>
  {
    if |lists| == 0 then [] else Flatten(lists[..|lists| - 1]) + lists[|lists| - 1]
  }

  /**
   * A composite of non-empty composites starts where its first inner
   * composite starts and ends where its last inner composite ends, and
   * so does the flat list of all their operators.
   */
  lemma {:induction false} NestedDims(lists: seq<seq<Operator>>)
    requires |lists| > 0 && forall i :: 0 <= i < |lists| ==> |lists[i]| > 0
    ensures ListStartDims(Flatten(lists)) == ListStartDims(lists[0])
    ensures ListEndDims(Flatten(lists)) == ListEndDims(lists[|lists| - 1])
  {
    var n := |lists|;
    var prefix := lists[..n - 1];
    if n == 1 {
      assert Flatten(prefix) == [];
      assert Flatten(lists) == lists[0];
    } else {
      NestedDims(prefix);
      assert prefix[0] == lists[0];
      AppendDims(Flatten(prefix), lists[n - 1]);
    }
  }

  /** An operator applied in sequence; it holds its operators in the order they were added. */
  class CompositeOperator {
    var ops: seq<Operator>

    /** A new composite has no operators. */
    constructor()
      ensures ops == []
    {
      ops := [];
    }

    /** `addOperator`: appends the operator after those already added. */
    method AddOperator(op: Operator)
      modifies this
      ensures ops == old(ops) + [op]
    {
      ops := ops + [op];
    }

    /** `getOperators`: the operators, in the order they were added. */
    function GetOperators(): (r: seq<Operator>)
      reads this
      ensures r == ops
    {
      ops
    }

    /** `startDims`: where the first operator starts; a logic error when there are no operators. */
    function StartDims(): (r: Result<Dimensions, string>)
      reads this
      ensures r.Err? <==> |ops| == 0
      ensures r.Ok? ==> r.value == ops[0].StartDims()
    {
      ListStartDims(ops)
    }

    /** `endDims`: where the last operator ends; a logic error when there are no operators. */
    function EndDims(): (r: Result<Dimensions, string>)
      reads this
      ensures r.Err? <==> |ops| == 0
      ensures r.Ok? ==> r.value == ops[|ops| - 1].EndDims()
    {
      ListEndDims(ops)
    }
  }

  // -----------------------------------------------------------------------
  // Visiting
  // -----------------------------------------------------------------------

  /** The overloads of a geometry operator visitor. */
  datatype Kind = TranslationKind | RotationKind | ScaleKind | MatrixKind | CompositeKind | SliceKind

  /** What a visitor was called with: an operator value, or a composite operator object. */
  datatype Visited = OperatorArg(op: Operator) | CompositeArg(composite: CompositeOperator)

  /** One visitor call: the overload chosen and the argument passed to it. */
  datatype VisitCall = VisitCall(overload: Kind, arg: Visited)

  /** The overload each fixed-kind operator is visited as. */
  function KindOf(op: Operator): Kind
    requires !op.Custom?
  {
    match op
    case Translation(_, _) => TranslationKind
    case Rotation(_, _, _, _) => RotationKind
    case Scale(_, _, _, _) => ScaleKind
    case ArbitraryMatrix(_, _) => MatrixKind
    case Slice(_, _, _) => SliceKind
  }

  /** A visitor that records the calls made to it, in order. */
  class RecordingVisitor {
    var calls: seq<VisitCall>

    constructor()
      ensures calls == []
    {
      calls := [];
    }

    method Visit(overload: Kind, arg: Visited)
      modifies this
      ensures calls == old(calls) + [VisitCall(overload, arg)]
    {
      calls := calls + [VisitCall(overload, arg)];
    }
  }

  /** `accept` of a fixed-kind operator: one call to the overload for its own kind, with the operator itself. */
  method Accept(op: Operator, v: RecordingVisitor)
    requires !op.Custom?
    modifies v
    ensures v.calls == old(v.calls) + [VisitCall(KindOf(op), OperatorArg(op))]
  {
    v.Visit(KindOf(op), OperatorArg(op));
  }

  /** `accept` of a composite operator: one call to the composite overload, with the composite itself. */
  method AcceptComposite(c: CompositeOperator, v: RecordingVisitor)
    modifies v
    ensures v.calls == old(v.calls) + [VisitCall(CompositeKind, CompositeArg(c))]
  {
    v.Visit(CompositeKind, CompositeArg(c));
  }

  // -----------------------------------------------------------------------
  // The composite-operator tests, as call sequences.
  // -----------------------------------------------------------------------

  /** An empty composite has no operators and no start or end dimensions. */
  method EmptyComposite() returns (c: CompositeOperator)
    ensures c.StartDims().Err? && c.EndDims().Err? && c.GetOperators() == []
  {
    c := new CompositeOperator();
  }

  /**
   * Adding a 2-to-3, a 3-to-3 and a 3-to-2 operator: the composite always
   * starts in two dimensions, ends where the last operator added ends, and
   * lists the operators in the order they were added.
   */
  method AddOperators() returns (c: CompositeOperator)
    ensures c.GetOperators() == [Custom(Two, Three), Custom(Three, Three), Custom(Three, Two)]
    ensures c.StartDims() == Ok(Two) && c.EndDims() == Ok(Two)
  {
    c := new CompositeOperator();
    var first := Custom(Two, Three);
    c.AddOperator(first);
    assert c.StartDims() == Ok(Two) && c.EndDims() == Ok(Three);
    assert c.GetOperators() == [first];
    var mid := Custom(Three, Three);
    c.AddOperator(mid);
    assert c.StartDims() == Ok(Two) && c.EndDims() == Ok(Three);
    assert c.GetOperators() == [first, mid];
    var last := Custom(Three, Two);
    c.AddOperator(last);
  }
}
