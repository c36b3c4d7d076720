# GreptimeDB: physical-plan codec and CREATE TABLE request builder

This project models two pieces of GreptimeDB's core in Dafny, with proofs.

**The physical-plan codec** (`src/common/grpc/src/physical/plan.rs`) converts
between two representations of a query plan:

- the wire message `PhysicalPlanNode`, a tagged union whose tag may be absent;
- an execution-plan tree.

Decoding (`try_into_physical_plan`) does the following:

- rejects an untagged node;
- decodes a projection's child first;
- pairs the projection's expressions with their output names the way `zip`
  does;
- hands the pairs to the projection constructor.

Encoding (`try_from_physical_plan`) recognises projections and the mock leaf.
It encodes the child first, then each expression. Every other plan kind is
refused.

The model is in these files:

- `physical_plan.dfy` holds the codec.
- `physical_expr.dfy` holds the column-only expression sub-codec both
  directions rely on.
- `grpc_error.dfy` holds the codec's error kinds.
- `wrappers.dfy` holds the `Option`/`Result` wrappers shared by every module.

**The request builder** (`SqlHandler::create_to_request` in
`src/datanode/src/sql/create.rs`) turns a parsed CREATE TABLE statement into a
`CreateTableRequest`. It runs these steps, in this order:

1. Resolve the table name.
2. Map each column name to its position; the last position wins for a repeated
   name.
3. Walk the constraints in order. A `TIME INDEX` constraint sets the
   time-index position. An unnamed PRIMARY KEY appends the positions of its
   columns. Every other constraint is refused with its own error.
4. Refuse a time index that is part of the primary key.
5. Refuse a statement without a time index.
6. Default the primary key to the time index.
7. Assemble the request with fixed defaults.

`create_table.dfy` models all of this in three parts:

- `CreateToRequestSpec` is the reference function.
- `CreateToRequest` is the imperative handler, proved equal to it. Its loop
  over the constraints is `CollectConstraints`, and the nested loop over the
  key columns is `CollectPrimaryKey`.
- Lemmas read the reference function in the source's own terms (which
  constraints are accepted, which error wins, what the request holds), and
  concrete lemmas replay the handler's unit tests.

## Model

| member | source | states |
|---|---|---|
| PhysicalExpr.ParseGrpcPhysicalExpr | src/common/grpc/src/physical/plan.rs:90-92 | An expression decodes exactly when its tag is present; an untagged one fails with EmptyPhysicalExpr; a decoded expression is a column that encodes back to the same wire expression. |
| PhysicalExpr.ParseDfPhysicalExpr | src/common/grpc/src/physical/plan.rs:115-119 | An expression encodes exactly when it is a column; anything else fails with UnsupportedDfExpr carrying its description. |
| PhysicalPlan.ParseProjectionExprs | src/common/grpc/src/physical/plan.rs:86-93 | The zip-then-collect over expressions and names succeeds exactly when every expression within the shorter list decodes. The result has the shorter list's length, pairs each decoded expression with its name in order, and on failure carries the first failing expression's error. |
| PhysicalPlan.TryIntoPhysicalPlan | src/common/grpc/src/physical/plan.rs:70-104 | Untagged node gives EmptyPhysicalPlan with the node's debug text. Mock gives MockExecution with the same name. Projection without input gives MissingField("input"). A child error or an expression error propagates, child first. When both decode, the result is what the `try_new` stand-in `NewProjectionExec` gives for the zipped pairs over the decoded child, so its refusal comes out as NewProjection. A decoded projection has the decoded child and the zipped pairs. Every decoded plan is encodable and constructible. |
| PhysicalPlan.NewProjectionExec | src/common/grpc/src/physical/plan.rs:95-96 | The stand-in for `ProjectionExec::try_new` builds the projection exactly when every column index lies within the input's schema, and otherwise fails with NewProjection. |
| PhysicalPlan.ParseDfExprs | src/common/grpc/src/physical/plan.rs:115-119 | Encoding a projection's expressions succeeds exactly when all are columns. The result is pointwise and in order; otherwise the first non-column decides the error. |
| PhysicalPlan.TryFromPhysicalPlan | src/common/grpc/src/physical/plan.rs:106-144 | Encoding succeeds exactly when the tree holds only projections of columns and mock leaves. Mock gives a Mock node with the same name. Any other kind gives UnsupportedDfPlan. A child error propagates. When the child encodes, the first expression without a wire form decides the error. A projection gives a node with the encoded child and expressions and the names, in order. |
| PhysicalPlan.EncodeDecodeRoundTrip | src/common/grpc/src/physical/plan.rs:232-250 | Any encodable plan that the projection constructor accepts comes back unchanged from encode then decode. |
| PhysicalPlan.DecodeEncodeRoundTrip | src/common/grpc/src/physical/plan.rs:70-144 | Decode then encode returns the wire tree with each projection's two lists cut to the shorter one. |
| PhysicalPlan.ZippedIdentity | src/common/grpc/src/physical/plan.rs:86-89 | That cut changes a wire tree exactly when some projection in it has lists of different lengths. |
| PhysicalPlan.DecodeEncodeIdentity | src/common/grpc/src/physical/plan.rs:70-144 | A decodable wire tree whose projections have matching lists round-trips exactly. |
| PhysicalPlan.MisalignedIsNotRestored | src/common/grpc/src/physical/plan.rs:86-89 | A decodable wire tree with a mismatched projection does not come back unchanged. |
| PhysicalPlan.ProjectionOverMockRoundTrip | src/common/grpc/src/physical/plan.rs:252-279 | The tests' projection of columns id and name over the mock leaf "mock_input" round-trips, keeping the leaf's name and the two output names in order. |
| CreateTable.ColumnPositions | src/datanode/src/sql/create.rs:124-130 | Every name in the map is a declared column and every declared column is in the map. A name maps to a position holding that name, with no later column of the same name. |
| CreateTable.Positions | src/datanode/src/sql/create.rs:153-159 | Key lookup succeeds exactly when every column is known, giving their positions in order; otherwise it fails with KeyColumnNotFound for the first unknown column. |
| CreateTable.ApplyConstraint | src/datanode/src/sql/create.rs:133-176 | One constraint step succeeds exactly when the constraint is accepted, and fails with that constraint's own error otherwise. A TIME INDEX sets the time-index position; a PRIMARY KEY appends the key positions. |
| CreateTable.CollectPrimaryKey | src/datanode/src/sql/create.rs:152-159 | The inner loop returns what `Positions` specifies. |
| CreateTable.CollectConstraints | src/datanode/src/sql/create.rs:132-177 | The constraint loop returns exactly the walk `Walk` specifies, including the error of the first refused constraint. |
| CreateTable.CreateToRequest | src/datanode/src/sql/create.rs:113-225 | The handler returns exactly `CreateToRequestSpec` for every input. |
| CreateTable.WalkAccepts | src/datanode/src/sql/create.rs:132-177 | The walk succeeds exactly when every constraint is accepted. |
| CreateTable.WalkMeaning | src/datanode/src/sql/create.rs:139-159 | A successful walk holds the position of the last TIME INDEX column, or none, and the positions of all PRIMARY KEY columns in constraint order. |
| CreateTable.FirstRejectionDecides | src/datanode/src/sql/create.rs:132-177 | The first refused constraint decides the walk's error. |
| CreateTable.PositionMember | src/datanode/src/sql/create.rs:179-184 | The position check agrees with a name check: a column's position is among the key positions exactly when its name is among the key names. |
| CreateTable.CreateSucceedsIff | src/datanode/src/sql/create.rs:113-225 | The call succeeds exactly when the name resolves, every constraint is accepted, there is a TIME INDEX, and its column is not in the primary key. A name that does not resolve fails with ParseSql before anything else. |
| CreateTable.CreateSuccessUnfolds | src/datanode/src/sql/create.rs:132-194 | A successful call walked every constraint to the time index's position and the key columns' positions. |
| CreateTable.CreateRequestDefaults | src/datanode/src/sql/create.rs:212-223 | A request carries the table id, the resolved catalog, schema and table names, no description, region [0], no options, and the statement's IF NOT EXISTS flag. |
| CreateTable.CreateRequestTimeIndex | src/datanode/src/sql/create.rs:196-203 | The request's schema lists the statement's columns in order. Exactly the column the last TIME INDEX names is flagged as the time index. |
| CreateTable.CreateRequestPrimaryKey | src/datanode/src/sql/create.rs:179-194 | The key is the time-index position alone when no PRIMARY KEY is given. Otherwise it is the key columns' positions in order, without the time index. Each position is a column. |
| CreateTable.CreateRejectsFirstBadConstraint | src/datanode/src/sql/create.rs:139-175 | A refused constraint after accepted ones fails the call with that constraint's error: KeyColumnNotFound, InvalidSql or ConstraintNotSupported. |
| CreateTable.CreateRequiresTimeIndex | src/datanode/src/sql/create.rs:186 | Accepted constraints with no TIME INDEX fail with MissingTimestampColumn. |
| CreateTable.CreateRejectsTimeIndexInPrimaryKey | src/datanode/src/sql/create.rs:179-184 | A TIME INDEX column inside the primary key fails with InvalidPrimaryKey. |
| CreateTable.CreateTimeIndexThenKey | src/datanode/src/sql/create.rs:132-194 | TIME INDEX then PRIMARY KEY over declared columns, with the time index outside the key, is accepted. In that case the time index and the key are the named columns. |
| CreateTable.CreateTimeIndexInsideKey | src/datanode/src/sql/create.rs:179-184 | The same pair with the time index inside the key is refused with InvalidPrimaryKey. |
| CreateTable.CreateKeyWithoutTimeIndex | src/datanode/src/sql/create.rs:186 | A lone PRIMARY KEY over declared columns is refused with MissingTimestampColumn. |
| CreateTable.CreateTimeIndexOnly | src/datanode/src/sql/create.rs:188-194 | A lone TIME INDEX is accepted, and its column's position becomes the whole key. |
| CreateTable.CreateDemoTable | src/datanode/src/sql/create.rs:345-367 | The c.s.demo statement of test_parse_create_sql is accepted. The request carries id 42 and IF NOT EXISTS off. Its catalog, schema and table names are those of the resolved name c.s.demo, which the lemma takes as its `fullName` input. |
| CreateTable.CreateDemoTableKey | src/datanode/src/sql/create.rs:345-370 | The c.s.demo statement's key is [0], the position of host. test_create_to_request (create.rs:252-271) asserts the same for demo_table, which has the same columns and constraints. |
| CreateTable.CreateDemoTableSchema | src/datanode/src/sql/create.rs:252-271 | The c.s.demo statement has four columns, and only the second (ts) is the time index. That statement has the same columns and constraints as test_create_to_request's demo_table; only the table name differs, and the name does not reach the schema. |
| CreateTable.CreateWithoutTimeIndex | src/datanode/src/sql/create.rs:273-287 | Without TIME INDEX the tests' table fails with MissingTimestampColumn. |
| CreateTable.CreateWithoutPrimaryKey | src/datanode/src/sql/create.rs:289-308 | Without PRIMARY KEY the key is [1], the position of the time-index column ts. |
| CreateTable.CreateWithUnknownTimeIndex | src/datanode/src/sql/create.rs:310-323 | A TIME INDEX on an undeclared column fails with KeyColumnNotFound("ts"). |
| CreateTable.CreateWithTimeIndexInKey | src/datanode/src/sql/create.rs:325-343 | PRIMARY KEY (host, cpu, ts) with TIME INDEX (ts) fails with InvalidPrimaryKey. |

## Left out

- `DefaultAsPlanImpl` (plan.rs:40-65), the protobuf byte envelope around the codec: byte-level protobuf decoding and its `DecodePhysicalPlanNode` error are not modelled. The model starts from the decoded `PhysicalPlanNode`.
- `MockExecution`'s `ExecutionPlan` implementation (plan.rs:159-219): only its name and its three-field schema (`schema`, plan.rs:165-170, as `MOCK_SCHEMA` and the `MockExecution` case of `Schema`) are modelled. `execute` builds in-memory record batches and is not modelled. `as_any` returns the plan itself; the encoder's downcast is modelled by matching on the plan's kind. `statistics` is `todo!()`, and the remaining methods are `unimplemented!()`.
- The expression codec (`crate::physical::expr`) is not part of this model. `PhysicalExpr` is a stand-in that carries exactly a column reference (name and index) across the wire and refuses every other expression kind.
- `ProjectionExec::try_new` belongs to the query engine. `NewProjectionExec` stands in for it: it refuses a column index beyond the input's schema with NewProjection. The engine's other reasons to refuse a projection are not modelled.
- TryFromPhysicalPlan: `UnsupportedDfPlan` carries the text "Any { .. }" for every unsupported plan. The code formats the `&dyn Any` it downcast from, not the plan itself. So the error text does not name the plan's concrete type.
- TryIntoPhysicalPlan: `EmptyPhysicalPlan` carries the debug text of the empty node, written as a constant. The nested debug formatting of non-empty nodes is never reached on that path.
- `table_idents_to_full_name` (create.rs:121-122) lives in the sql crate. Its outcome is the `fullName` parameter, and `None` stands for its failure (ParseSql).
- `column_def_to_schema` (imported from `sql::statements`, create.rs:27) and `SchemaBuilder` (imported from `datatypes::schema`, create.rs:23) are used at create.rs:196-210 and are not part of this model. The model keeps each column with its time-index flag. Their type-conversion and schema-building failures (`ParseSql`, `CreateSchema`) are not modelled.
- CreateToRequest: `ts_index` starts at the sentinel `usize::MAX`, which the model writes as `Option<nat>` with None for "unset". The code's check `primary_keys.any(|i| i == ts_index)` also runs while unset. It cannot match there, because every key position is a column position.
- CreateToRequest requires every TIME INDEX constraint to name at least one column (`TimeIndexColumnsPresent`). The code reads `columns[0]` unchecked (create.rs:141-143) and panics when the constraint walk reaches such a constraint. The model assumes no such statement reaches the handler; the parser that would guarantee it is not part of this model. The requires is broader than the panic: it also excludes statements the code answers with an error before reaching the empty TIME INDEX, namely a name that does not resolve (ParseSql, create.rs:122) and a refused constraint earlier in the list (for example ConstraintNotSupported, create.rs:170-174). The model says nothing about those statements.
- CreateToRequest: the InvalidSql message for a named UNIQUE constraint concatenates the name as given. The identifier's display quoting is not modelled.
- `create_database` and `create_table` (create.rs:41-110) are not modelled. They call the catalog and table engine asynchronously to register the table.
- `TIME_INDEX_NAME` is defined in `store_api`, which is not part of this model. The model fixes its value as "__time_index". Only its being different from every other constraint name matters to the proofs.
- The `info!` logging is not modelled.
- `src/meta-srv/src/handler/datanode_lease.rs` and `tests/runner/src/main.rs` are context outside the modelled core.
- CreateTable.TableId is the 32-bit table id. Column positions are unbounded naturals; the source's `usize` cannot overflow for any real column list.
