/** The expression sub-codec used by projection nodes.  Only column references
    cross the wire: a column names a field of the input and gives its position. */
module PhysicalExpr {
  import opened Wrappers
  import opened GrpcError

  /** An executable (DataFusion) physical expression.  `OtherExpr` stands for
      every expression kind that has no wire form; `desc` is its debug text. */
  datatype PhysicalExpr =
    | Column(name: string, index: nat)
    | OtherExpr(desc: string)

  /** A wire expression: a tagged union whose tag may be absent. */
  datatype PhysicalExprNode = PhysicalExprNode(exprType: Option<ExprType>)

  datatype ExprType = ColumnExpr(name: string, index: nat)

  /** Wire expression to executable expression (`parse_grpc_physical_expr`). */
  function ParseGrpcPhysicalExpr(node: PhysicalExprNode): (r: Result<PhysicalExpr, Error>)
    ensures r.Ok? <==> node.exprType.Some?
    ensures r.Err? ==> r.error == EmptyPhysicalExpr
    ensures r.Ok? ==> r.value.Column? && ParseDfPhysicalExpr(r.value) == Ok(node)
  {
    match node.exprType
    case None => Err(EmptyPhysicalExpr)
    case Some(ColumnExpr(name, index)) => Ok(Column(name, index))
  }

  /** Executable expression to wire expression (`parse_df_physical_expr`). */
  function ParseDfPhysicalExpr(e: PhysicalExpr): (r: Result<PhysicalExprNode, Error>)
    ensures r.Ok? <==> e.Column?
    ensures r.Err? ==> r.error == UnsupportedDfExpr(e.desc)
    ensures r.Ok? ==> r.value.exprType.Some?
  {
    match e
    case Column(name, index) => Ok(PhysicalExprNode(Some(ColumnExpr(name, index))))
    case OtherExpr(desc) => Err(UnsupportedDfExpr(desc))
  }

  /** Encoding an expression and decoding it again gives the expression back. */
  lemma ExprEncodeDecode(e: PhysicalExpr)
    requires ParseDfPhysicalExpr(e).Ok?
    ensures ParseGrpcPhysicalExpr(ParseDfPhysicalExpr(e).value) == Ok(e)
  {
  }
}
