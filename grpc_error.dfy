/** The error kinds of the plan codec (the `common-grpc` crate's error enum),
    reduced to the payload each one carries. */
module GrpcError {

  datatype Error =
      /** A plan node whose `physical_plan_type` is absent; carries the node's debug text. */
    | EmptyPhysicalPlan(name: string)
      /** A structurally required field is absent. */
    | MissingField(field: string)
      /** An execution plan of a kind with no wire variant; carries its debug text. */
    | UnsupportedDfPlan(name: string)
      /** `ProjectionExec::try_new` refused the (expressions, input) pair. */
    | NewProjection
      /** A wire expression whose expression tag is absent. */
    | EmptyPhysicalExpr
      /** An in-memory expression of a kind with no wire variant; carries its debug text. */
    | UnsupportedDfExpr(name: string)
}
