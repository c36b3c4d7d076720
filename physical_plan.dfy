/** The physical-plan tree codec: `PhysicalPlanNode` (the wire tagged union)
    to and from an execution-plan tree.  Decoding recurses into the child
    before the parent is built; encoding tries the known plan kinds in a fixed
    order (Projection, then Mock) and rejects every other kind. */
module PhysicalPlan {
  import opened Wrappers
  import opened GrpcError
  import opened PhysicalExpr

  // ---------------------------------------------------------------- wire side

  /** A wire plan node; the plan-type tag may be absent. */
  datatype PhysicalPlanNode = PhysicalPlanNode(physicalPlanType: Option<PhysicalPlanType>)

  datatype PhysicalPlanType =
    | Projection(input: Option<PhysicalPlanNode>, expr: seq<PhysicalExprNode>, exprName: seq<string>)
    | Mock(name: string)

  // ----------------------------------------------------------- execution side

  /** An execution-plan tree.  `ProjectionExec` owns its child and an ordered
      list of (expression, output name) pairs; `MockExecution` is the named
      leaf; `OtherExec` stands for every other plan kind of the query engine,
      described by its kind name and the field names of its schema.  The
      encoder never reads `desc`: it reports every such plan with the same
      text, `ANY_DEBUG`. */
  datatype ExecutionPlan =
    | ProjectionExec(exprs: seq<(PhysicalExpr, string)>, input: ExecutionPlan)
    | MockExecution(name: string)
    | OtherExec(desc: string, fields: seq<string>)

  /** Debug text of a node without a plan type: the payload of EmptyPhysicalPlan. */
  const EMPTY_NODE_DEBUG: string := "PhysicalPlanNode { physical_plan_type: None }"

  /** Debug text of a `&dyn Any`, which is what the encoder formats into
      UnsupportedDfPlan: it is the same for every unsupported plan. */
  const ANY_DEBUG: string := "Any { .. }"

  /** The hard-coded schema of the mock leaf. */
  const MOCK_SCHEMA: seq<string> := ["id", "name", "age"]

  /** The length of what `zip` yields from two lists. */
  function Min(a: nat, b: nat): nat {
    if a <= b then a else b
  }

  function ExprNames(exprs: seq<(PhysicalExpr, string)>): seq<string> {
    seq(|exprs|, i requires 0 <= i < |exprs| => exprs[i].1)
  }

  /** The field names of a plan's output schema. */
  function Schema(plan: ExecutionPlan): seq<string> {
    match plan
    case ProjectionExec(exprs, _) => ExprNames(exprs)
    case MockExecution(_) => MOCK_SCHEMA
    case OtherExec(_, fields) => fields
  }

  /** A column reference is valid against a schema when its position exists. */
  predicate FitsSchema(e: PhysicalExpr, schema: seq<string>) {
    match e
    case Column(_, index) => index < |schema|
    case OtherExpr(_) => true
  }

  /** Stand-in for DataFusion's `ProjectionExec::try_new`: it refuses an
      expression that refers past the end of the input's schema. */
  function NewProjectionExec(exprs: seq<(PhysicalExpr, string)>, input: ExecutionPlan): (r: Result<ExecutionPlan, Error>)
    ensures r.Ok? <==> forall i :: 0 <= i < |exprs| ==> FitsSchema(exprs[i].0, Schema(input))
    ensures r.Err? ==> r.error == NewProjection
    ensures r.Ok? ==> r.value == ProjectionExec(exprs, input)
  {
    if forall i :: 0 <= i < |exprs| ==> FitsSchema(exprs[i].0, Schema(input))
    then Ok(ProjectionExec(exprs, input))
    else Err(NewProjection)
  }

  /** Every projection in the tree is one that `try_new` accepts, as is the
      case for any plan the query engine has built. */
  predicate Constructible(plan: ExecutionPlan) {
    match plan
    case ProjectionExec(exprs, input) => NewProjectionExec(exprs, input).Ok? && Constructible(input)
    case MockExecution(_) => true
    case OtherExec(_, _) => true
  }

  /** Every node of the tree has a wire variant and every expression a wire form. */
  predicate Transmissible(plan: ExecutionPlan) {
    match plan
    case ProjectionExec(exprs, input) =>
      (forall i :: 0 <= i < |exprs| ==> exprs[i].0.Column?) && Transmissible(input)
    case MockExecution(_) => true
    case OtherExec(_, _) => false
  }

  /** Every wire node carries its tag, every projection its input, equally
      long expression and name lists, and tagged expressions. */
  predicate WellTagged(node: PhysicalPlanNode) {
    match node.physicalPlanType
    case None => false
    case Some(Mock(_)) => true
    case Some(Projection(input, expr, exprName)) =>
      && input.Some?
      && |expr| == |exprName|
      && (forall i :: 0 <= i < |expr| ==> expr[i].exprType.Some?)
      && WellTagged(input.value)
  }

  /** Every wire projection has as many names as expressions. */
  predicate Aligned(node: PhysicalPlanNode) {
    match node.physicalPlanType
    case None => true
    case Some(Mock(_)) => true
    case Some(Projection(input, expr, exprName)) =>
      |expr| == |exprName| && (input.Some? ==> Aligned(input.value))
  }

  /** The wire tree with every projection's two lists cut to the shorter one,
      which is all that `zip` lets the decoder see. */
  function Zipped(node: PhysicalPlanNode): PhysicalPlanNode {
    match node.physicalPlanType
    case None => node
    case Some(Mock(_)) => node
    case Some(Projection(input, expr, exprName)) =>
      var k := Min(|expr|, |exprName|);
      var zippedInput := if input.Some? then Some(Zipped(input.value)) else None;
      PhysicalPlanNode(Some(Projection(zippedInput, expr[..k], exprName[..k])))
  }

  // ------------------------------------------------------------------- decode

  /** Pairs `expr[i]` (decoded) with `exprName[i]`, as `zip` then `collect`
      into a `Result` does: as many pairs as the shorter list, in order, and
      the first failing expression's error otherwise. */
  function ParseProjectionExprs(expr: seq<PhysicalExprNode>, exprName: seq<string>)
    : (r: Result<seq<(PhysicalExpr, string)>, Error>)
    ensures r.Ok? <==> forall i :: 0 <= i < Min(|expr|, |exprName|) ==> ParseGrpcPhysicalExpr(expr[i]).Ok?
    ensures r.Ok? ==>
      && |r.value| == Min(|expr|, |exprName|)
      && forall i :: 0 <= i < |r.value| ==>
           ParseGrpcPhysicalExpr(expr[i]) == Ok(r.value[i].0) && r.value[i].1 == exprName[i]
    ensures r.Err? ==>
      exists i :: 0 <= i < Min(|expr|, |exprName|) && ParseGrpcPhysicalExpr(expr[i]) == Err(r.error)
                  && forall j :: 0 <= j < i ==> ParseGrpcPhysicalExpr(expr[j]).Ok?
  {
    if |expr| == 0 || |exprName| == 0 then Ok([])
    else
      var e :- ParseGrpcPhysicalExpr(expr[0]);
      var rest :- ParseProjectionExprs(expr[1..], exprName[1..]);
      Ok([(e, exprName[0])] + rest)
  }

  /** Wire node to execution plan (`try_into_physical_plan`). */
  function TryIntoPhysicalPlan(node: PhysicalPlanNode): (r: Result<ExecutionPlan, Error>)
    ensures r.Ok? ==> Transmissible(r.value) && Constructible(r.value)
    ensures match node.physicalPlanType
      case None => r == Err(EmptyPhysicalPlan(EMPTY_NODE_DEBUG))
      case Some(Mock(name)) => r == Ok(MockExecution(name))
      case Some(Projection(None, _, _)) => r == Err(MissingField("input"))
      case Some(Projection(Some(child), expr, exprName)) =>
        && (TryIntoPhysicalPlan(child).Err? ==> r == TryIntoPhysicalPlan(child))
        && (TryIntoPhysicalPlan(child).Ok? && ParseProjectionExprs(expr, exprName).Err? ==>
              r == Err(ParseProjectionExprs(expr, exprName).error))
        && (TryIntoPhysicalPlan(child).Ok? && ParseProjectionExprs(expr, exprName).Ok? ==>
              r == NewProjectionExec(ParseProjectionExprs(expr, exprName).value, TryIntoPhysicalPlan(child).value))
        && (r.Ok? ==>
              && r.value.ProjectionExec?
              && r.value.input == TryIntoPhysicalPlan(child).value
              && |r.value.exprs| == Min(|expr|, |exprName|)
              && forall i :: 0 <= i < |r.value.exprs| ==>
                   ParseGrpcPhysicalExpr(expr[i]) == Ok(r.value.exprs[i].0) && r.value.exprs[i].1 == exprName[i])
  {
    match node.physicalPlanType
    case None => Err(EmptyPhysicalPlan(EMPTY_NODE_DEBUG))
    case Some(Projection(input, expr, exprName)) =>
      if input.None? then Err(MissingField("input"))
      else
        var child :- TryIntoPhysicalPlan(input.value);
        var exprs :- ParseProjectionExprs(expr, exprName);
        NewProjectionExec(exprs, child)
    case Some(Mock(name)) => Ok(MockExecution(name))
  }

  // ------------------------------------------------------------------- encode

  /** Encodes each expression of a projection, in order; the first expression
      without a wire form decides the error. */
  function ParseDfExprs(exprs: seq<(PhysicalExpr, string)>): (r: Result<seq<PhysicalExprNode>, Error>)
    ensures r.Ok? <==> forall i :: 0 <= i < |exprs| ==> exprs[i].0.Column?
    ensures r.Ok? ==>
      && |r.value| == |exprs|
      && forall i :: 0 <= i < |exprs| ==> ParseDfPhysicalExpr(exprs[i].0) == Ok(r.value[i])
    ensures r.Err? ==>
      exists i :: 0 <= i < |exprs| && exprs[i].0.OtherExpr? && r.error == UnsupportedDfExpr(exprs[i].0.desc)
                  && forall j :: 0 <= j < i ==> exprs[j].0.Column?
  {
    if |exprs| == 0 then Ok([])
    else
      var e :- ParseDfPhysicalExpr(exprs[0].0);
      var rest :- ParseDfExprs(exprs[1..]);
      Ok([e] + rest)
  }

  /** Execution plan to wire node (`try_from_physical_plan`). */
  function TryFromPhysicalPlan(plan: ExecutionPlan): (r: Result<PhysicalPlanNode, Error>)
    ensures r.Ok? <==> Transmissible(plan)
    ensures r.Ok? ==> WellTagged(r.value)
    ensures match plan
      case MockExecution(name) => r == Ok(PhysicalPlanNode(Some(Mock(name))))
      case OtherExec(_, _) => r == Err(UnsupportedDfPlan(ANY_DEBUG))
      case ProjectionExec(exprs, input) =>
        && (TryFromPhysicalPlan(input).Err? ==> r == TryFromPhysicalPlan(input))
        && (TryFromPhysicalPlan(input).Ok? && ParseDfExprs(exprs).Err? ==> r == Err(ParseDfExprs(exprs).error))
        && (r.Ok? ==>
              && r.value.physicalPlanType.Some?
              && r.value.physicalPlanType.value.Projection?
              && var p := r.value.physicalPlanType.value;
                 && p.input == Some(TryFromPhysicalPlan(input).value)
                 && |p.expr| == |exprs| && |p.exprName| == |exprs|
                 && forall i :: 0 <= i < |exprs| ==>
                      ParseDfPhysicalExpr(exprs[i].0) == Ok(p.expr[i]) && p.exprName[i] == exprs[i].1)
  {
    match plan
    case ProjectionExec(exprs, input) =>
      var inputNode :- TryFromPhysicalPlan(input);
      var expr :- ParseDfExprs(exprs);
      Ok(PhysicalPlanNode(Some(Projection(Some(inputNode), expr, ExprNames(exprs)))))
    case MockExecution(name) => Ok(PhysicalPlanNode(Some(Mock(name))))
    case OtherExec(_, _) => Err(UnsupportedDfPlan(ANY_DEBUG))
  }

  // --------------------------------------------------------------- round trips

  /** A plan the engine built from supported kinds survives encode then decode unchanged. */
  lemma {:induction false} EncodeDecodeRoundTrip(plan: ExecutionPlan)
    requires Transmissible(plan) && Constructible(plan)
    ensures TryFromPhysicalPlan(plan).Ok?
    ensures TryIntoPhysicalPlan(TryFromPhysicalPlan(plan).value) == Ok(plan)
  {
    match plan
    case MockExecution(_) =>
    case ProjectionExec(exprs, input) =>
      EncodeDecodeRoundTrip(input);
      var p := TryFromPhysicalPlan(plan).value.physicalPlanType.value;
      forall i | 0 <= i < |exprs|
        ensures ParseGrpcPhysicalExpr(p.expr[i]) == Ok(exprs[i].0)
      {
        ExprEncodeDecode(exprs[i].0);
      }
      var pairs := ParseProjectionExprs(p.expr, p.exprName);
      assert pairs.Ok?;
      assert pairs.value == exprs;
  }

  /** Decode then encode gives back the wire tree, up to the truncation that
      `zip` performs on each projection's two lists. */
  lemma {:induction false} DecodeEncodeRoundTrip(node: PhysicalPlanNode)
    requires TryIntoPhysicalPlan(node).Ok?
    ensures TryFromPhysicalPlan(TryIntoPhysicalPlan(node).value) == Ok(Zipped(node))
  {
    match node.physicalPlanType
    case Some(Mock(_)) =>
    case Some(Projection(input, expr, exprName)) =>
      var child := input.value;
      DecodeEncodeRoundTrip(child);
      var plan := TryIntoPhysicalPlan(node).value;
      var k := Min(|expr|, |exprName|);
      var enc := ParseDfExprs(plan.exprs);
      assert enc.Ok?;
      assert enc.value == expr[..k];
      assert ExprNames(plan.exprs) == exprName[..k];
  }

  /** Truncation changes a wire tree exactly when some projection in it has
      lists of different lengths. */
  lemma {:induction false} ZippedIdentity(node: PhysicalPlanNode)
    ensures Zipped(node) == node <==> Aligned(node)
  {
    match node.physicalPlanType
    case None =>
    case Some(Mock(_)) =>
    case Some(Projection(input, expr, exprName)) =>
      if input.Some? {
        ZippedIdentity(input.value);
      }
      var k := Min(|expr|, |exprName|);
      var zippedInput := if input.Some? then Some(Zipped(input.value)) else None;
      assert Zipped(node) == PhysicalPlanNode(Some(Projection(zippedInput, expr[..k], exprName[..k])));
      if Zipped(node) == node {
        assert expr[..k] == expr && exprName[..k] == exprName;
        assert |expr| == k == |exprName|;
        assert zippedInput == input;
      }
      if Aligned(node) {
        assert expr[..k] == expr && exprName[..k] == exprName;
      }
  }

  /** A decodable wire tree whose projections carry matching lists comes back
      tag for tag from decode then encode. */
  lemma DecodeEncodeIdentity(node: PhysicalPlanNode)
    requires TryIntoPhysicalPlan(node).Ok? && Aligned(node)
    ensures TryFromPhysicalPlan(TryIntoPhysicalPlan(node).value) == Ok(node)
  {
    DecodeEncodeRoundTrip(node);
    ZippedIdentity(node);
  }

  /** ... and one with a projection whose lists differ in length does not:
      the names or expressions beyond the shorter list are dropped. */
  lemma MisalignedIsNotRestored(node: PhysicalPlanNode)
    requires TryIntoPhysicalPlan(node).Ok? && !Aligned(node)
    ensures TryFromPhysicalPlan(TryIntoPhysicalPlan(node).value) != Ok(node)
  {
    DecodeEncodeRoundTrip(node);
    ZippedIdentity(node);
  }

  /** The projection over a mock leaf from the codec's own tests: after the
      round trip the input is the mock named "mock_input" and the output names
      are "id" and "name", in that order. */
  lemma ProjectionOverMockRoundTrip()
    ensures var plan := ProjectionExec([(Column("id", 0), "id"), (Column("name", 1), "name")],
                                       MockExecution("mock_input"));
            && TryFromPhysicalPlan(plan).Ok?
            && var decoded := TryIntoPhysicalPlan(TryFromPhysicalPlan(plan).value);
               && decoded == Ok(plan)
               && decoded.value.input == MockExecution("mock_input")
               && |decoded.value.exprs| == 2
               && decoded.value.exprs[0].1 == "id"
               && decoded.value.exprs[1].1 == "name"
  {
    var plan := ProjectionExec([(Column("id", 0), "id"), (Column("name", 1), "name")],
                               MockExecution("mock_input"));
    assert NewProjectionExec(plan.exprs, plan.input).Ok?;
    EncodeDecodeRoundTrip(plan);
  }
}
