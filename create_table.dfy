/** Building a CREATE TABLE request from a parsed statement
    (`SqlHandler::create_to_request`): the table constraints are walked in
    order, a TIME INDEX constraint sets the time-index column, PRIMARY KEY
    constraints append key positions, and every other constraint is refused;
    then the time index is checked against the primary key and the request is
    assembled with fixed defaults. */
module CreateTable {
  import opened Wrappers

  /** The constraint name under which the parser records `TIME INDEX (col)`. */
  const TIME_INDEX_NAME: string := "__time_index"

  const NAMED_UNIQUE_MSG: string := "Cannot recognize named UNIQUE constraint: "
  const UNNAMED_UNIQUE_MSG: string := "Unrecognized non-primary unnamed UNIQUE constraint: None"
  const TIME_INDEX_IN_PRIMARY_KEY_MSG: string := "time index column can't be included in primary key"

  newtype TableId = x: int | 0 <= x < 0x1_0000_0000

  /** A column of the statement: its name and its declared type. */
  datatype ColumnDef = ColumnDef(name: string, dataType: string)

  /** `TableConstraint::Unique` (which also carries PRIMARY KEY and TIME INDEX);
      `OtherConstraint` stands for every other kind, by its debug text. */
  datatype TableConstraint =
    | Unique(name: Option<string>, columns: seq<string>, isPrimary: bool)
    | OtherConstraint(desc: string)

  datatype CreateTableStmt = CreateTableStmt(
    columns: seq<ColumnDef>,
    constraints: seq<TableConstraint>,
    ifNotExists: bool)

  /** The (catalog, schema, table) triple resolved from the statement's name. */
  datatype FullName = FullName(catalog: string, schema: string, table: string)

  /** A column handed to the schema builder, with the time-index flag it was converted with. */
  datatype ColumnSchema = ColumnSchema(column: ColumnDef, isTimeIndex: bool)

  datatype CreateTableRequest = CreateTableRequest(
    id: TableId,
    catalogName: string,
    schemaName: string,
    tableName: string,
    desc: Option<string>,
    schema: seq<ColumnSchema>,
    regionNumbers: seq<nat>,
    primaryKeyIndices: seq<nat>,
    createIfNotExists: bool,
    tableOptions: map<string, string>)

  datatype Error =
    | ParseSql
    | KeyColumnNotFound(name: string)
    | InvalidSql(msg: string)
    | ConstraintNotSupported(constraint: string)
    | InvalidPrimaryKey(msg: string)
    | MissingTimestampColumn

  /** What the walk over the constraints accumulates: the time-index position
      (None while unset) and the primary-key positions. */
  datatype Acc = Acc(tsIndex: Option<nat>, primaryKeys: seq<nat>)

  predicate IsTimeIndex(c: TableConstraint) {
    c.Unique? && c.name == Some(TIME_INDEX_NAME)
  }

  /** Every TIME INDEX constraint names a column: the handler reads the first one unchecked. */
  predicate TimeIndexColumnsPresent(cs: seq<TableConstraint>) {
    forall i :: 0 <= i < |cs| && IsTimeIndex(cs[i]) ==> |cs[i].columns| > 0
  }

  // ------------------------------------------------------ column positions

  /** Column name to position, collected in order so that a repeated name
      maps to its last position. */
  function ColumnPositions(columns: seq<ColumnDef>): (m: map<string, nat>)
    ensures forall k :: k in m <==> exists i :: 0 <= i < |columns| && columns[i].name == k
    ensures forall k :: k in m ==>
      && m[k] < |columns|
      && columns[m[k]].name == k
      && forall j :: m[k] < j < |columns| ==> columns[j].name != k
  {
    if |columns| == 0 then map[]
    else
      var n := |columns| - 1;
      var pre := ColumnPositions(columns[..n]);
      assert forall i :: 0 <= i < n ==> columns[..n][i] == columns[i];
      pre[columns[n].name := n]
  }

  /** The positions of the given column names (all of them known). */
  function PositionsOf(m: map<string, nat>, cols: seq<string>): seq<nat>
    requires forall i :: 0 <= i < |cols| ==> cols[i] in m
  {
    seq(|cols|, i requires 0 <= i < |cols| => m[cols[i]])
  }

  /** Looks up each column of a PRIMARY KEY constraint in order; the first
      unknown one fails with KeyColumnNotFound. */
  function Positions(m: map<string, nat>, cols: seq<string>): (r: Result<seq<nat>, Error>)
    ensures r.Ok? <==> forall i :: 0 <= i < |cols| ==> cols[i] in m
    ensures r.Ok? ==> r.value == PositionsOf(m, cols)
    ensures r.Err? ==>
      exists i :: 0 <= i < |cols| && cols[i] !in m && r.error == KeyColumnNotFound(cols[i])
                  && forall j :: 0 <= j < i ==> cols[j] in m
  {
    if |cols| == 0 then Ok([])
    else
      var n := |cols| - 1;
      var pre := Positions(m, cols[..n]);
      assert forall i :: 0 <= i < n ==> cols[..n][i] == cols[i];
      if pre.Err? then
        pre
      else if cols[n] in m then
        assert PositionsOf(m, cols) == PositionsOf(m, cols[..n]) + [m[cols[n]]];
        Ok(pre.value + [m[cols[n]]])
      else
        assert forall j :: 0 <= j < n ==> cols[j] in m;
        Err(KeyColumnNotFound(cols[n]))
  }

  // ------------------------------------------- reference view of constraints

  /** The constraints the handler accepts: a TIME INDEX on a known column, or
      an unnamed PRIMARY KEY over known columns. */
  predicate Accepted(m: map<string, nat>, c: TableConstraint) {
    match c
    case Unique(name, columns, isPrimary) =>
      if name == Some(TIME_INDEX_NAME) then |columns| > 0 && columns[0] in m
      else name.None? && isPrimary && forall k :: 0 <= k < |columns| ==> columns[k] in m
    case OtherConstraint(_) => false
  }

  /** The error a refused constraint is reported with. */
  predicate RejectedWith(m: map<string, nat>, c: TableConstraint, e: Error) {
    match c
    case OtherConstraint(desc) => e == ConstraintNotSupported(desc)
    case Unique(name, columns, isPrimary) =>
      if name == Some(TIME_INDEX_NAME) then |columns| > 0 && e == KeyColumnNotFound(columns[0])
      else if name.Some? then e == InvalidSql(NAMED_UNIQUE_MSG + name.value)
      else if !isPrimary then e == InvalidSql(UNNAMED_UNIQUE_MSG)
      else exists k :: 0 <= k < |columns| && columns[k] !in m && e == KeyColumnNotFound(columns[k])
                       && forall l :: 0 <= l < k ==> columns[l] in m
  }

  /** The columns of all PRIMARY KEY constraints, in constraint order. */
  function PrimaryKeyColumns(cs: seq<TableConstraint>): seq<string> {
    if |cs| == 0 then []
    else
      var n := |cs| - 1;
      var c := cs[n];
      PrimaryKeyColumns(cs[..n]) + (if c.Unique? && c.name.None? && c.isPrimary then c.columns else [])
  }

  /** The first column of the last TIME INDEX constraint, if there is one. */
  function TimeIndexColumn(cs: seq<TableConstraint>): Option<string>
    requires TimeIndexColumnsPresent(cs)
  {
    if |cs| == 0 then None
    else
      var n := |cs| - 1;
      if IsTimeIndex(cs[n]) then Some(cs[n].columns[0]) else TimeIndexColumn(cs[..n])
  }

  // ------------------------------------------------------ the walk, as a function

  /** One step of the walk over the constraints. */
  function ApplyConstraint(m: map<string, nat>, acc: Acc, c: TableConstraint): (r: Result<Acc, Error>)
    requires IsTimeIndex(c) ==> |c.columns| > 0
    ensures r.Ok? <==> Accepted(m, c)
    ensures r.Err? ==> RejectedWith(m, c, r.error)
    ensures r.Ok? && IsTimeIndex(c) ==> r.value == acc.(tsIndex := Some(m[c.columns[0]]))
    ensures r.Ok? && !IsTimeIndex(c) ==> r.value == acc.(primaryKeys := acc.primaryKeys + PositionsOf(m, c.columns))
  {
    match c
    case Unique(name, columns, isPrimary) =>
      if name.Some? then
        if name.value == TIME_INDEX_NAME then
          if columns[0] in m then Ok(acc.(tsIndex := Some(m[columns[0]])))
          else Err(KeyColumnNotFound(columns[0]))
        else Err(InvalidSql(NAMED_UNIQUE_MSG + name.value))
      else if isPrimary then
        var ks :- Positions(m, columns);
        Ok(acc.(primaryKeys := acc.primaryKeys + ks))
      else Err(InvalidSql(UNNAMED_UNIQUE_MSG))
    case OtherConstraint(desc) => Err(ConstraintNotSupported(desc))
  }

  /** The walk over a prefix of the constraints; the first refused one stops it. */
  function Walk(m: map<string, nat>, cs: seq<TableConstraint>): Result<Acc, Error>
    requires TimeIndexColumnsPresent(cs)
  {
    if |cs| == 0 then Ok(Acc(None, []))
    else
      var n := |cs| - 1;
      var acc :- Walk(m, cs[..n]);
      ApplyConstraint(m, acc, cs[n])
  }

  function ColumnSchemas(columns: seq<ColumnDef>, tsIndex: nat): seq<ColumnSchema> {
    seq(|columns|, i requires 0 <= i < |columns| => ColumnSchema(columns[i], i == tsIndex))
  }

  /** What `create_to_request` returns, as a function of its inputs.
      `fullName` is the outcome of resolving the statement's table name. */
  function CreateToRequestSpec(tableId: TableId, stmt: CreateTableStmt, fullName: Option<FullName>)
    : Result<CreateTableRequest, Error>
    requires TimeIndexColumnsPresent(stmt.constraints)
  {
    if fullName.None? then Err(ParseSql)
    else
      var acc :- Walk(ColumnPositions(stmt.columns), stmt.constraints);
      if acc.tsIndex.Some? && acc.tsIndex.value in acc.primaryKeys then
        Err(InvalidPrimaryKey(TIME_INDEX_IN_PRIMARY_KEY_MSG))
      else if acc.tsIndex.None? then Err(MissingTimestampColumn)
      else
        var ts := acc.tsIndex.value;
        Ok(CreateTableRequest(
          id := tableId,
          catalogName := fullName.value.catalog,
          schemaName := fullName.value.schema,
          tableName := fullName.value.table,
          desc := None,
          schema := ColumnSchemas(stmt.columns, ts),
          regionNumbers := [0],
          primaryKeyIndices := if acc.primaryKeys == [] then [ts] else acc.primaryKeys,
          createIfNotExists := stmt.ifNotExists,
          tableOptions := map[]))
  }

  // ------------------------------------------------------------- the handler

  /** The inner loop of `create_to_request` over the columns of a PRIMARY KEY:
      appends each column's position, stopping at the first unknown column. */
  method CollectPrimaryKey(colMap: map<string, nat>, columns: seq<string>) returns (r: Result<seq<nat>, Error>)
    ensures r == Positions(colMap, columns)
  {
    var keys: seq<nat> := [];
    var j := 0;
    while j < |columns|
      invariant 0 <= j <= |columns|
      invariant Positions(colMap, columns[..j]) == Ok(keys)
    {
      assert columns[..j + 1][..j] == columns[..j];
      var col := columns[j];
      if col !in colMap {
        r := Err(KeyColumnNotFound(col));
        PositionsPrefixError(colMap, columns, j + 1);
        return;
      }
      keys := keys + [colMap[col]];
      j := j + 1;
    }
    assert columns[..j] == columns;
    r := Ok(keys);
  }

  /** The outer loop of `create_to_request` over the constraints. */
  method CollectConstraints(colMap: map<string, nat>, cs: seq<TableConstraint>) returns (r: Result<Acc, Error>)
    requires TimeIndexColumnsPresent(cs)
    ensures r == Walk(colMap, cs)
  {
    var tsIndex: Option<nat> := None;
    var primaryKeys: seq<nat> := [];
    var i := 0;
    while i < |cs|
      invariant 0 <= i <= |cs|
      invariant Walk(colMap, cs[..i]) == Ok(Acc(tsIndex, primaryKeys))
    {
      assert cs[..i + 1][..i] == cs[..i];
      ghost var step := ApplyConstraint(colMap, Acc(tsIndex, primaryKeys), cs[i]);
      assert Walk(colMap, cs[..i + 1]) == step;
      match cs[i] {
        case Unique(name, columns, isPrimary) =>
          if name.Some? {
            if name.value == TIME_INDEX_NAME {
              if columns[0] !in colMap {
                r := Err(KeyColumnNotFound(columns[0]));
                WalkPrefixError(colMap, cs, i + 1);
                return;
              }
              tsIndex := Some(colMap[columns[0]]);
            } else {
              r := Err(InvalidSql(NAMED_UNIQUE_MSG + name.value));
              WalkPrefixError(colMap, cs, i + 1);
              return;
            }
          } else if isPrimary {
            var keys := CollectPrimaryKey(colMap, columns);
            if keys.Err? {
              r := Err(keys.error);
              WalkPrefixError(colMap, cs, i + 1);
              return;
            }
            primaryKeys := primaryKeys + keys.value;
          } else {
            r := Err(InvalidSql(UNNAMED_UNIQUE_MSG));
            WalkPrefixError(colMap, cs, i + 1);
            return;
          }
        case OtherConstraint(desc) =>
          r := Err(ConstraintNotSupported(desc));
          WalkPrefixError(colMap, cs, i + 1);
          return;
      }
      i := i + 1;
    }
    assert cs[..i] == cs;
    r := Ok(Acc(tsIndex, primaryKeys));
  }

  /** `create_to_request`: resolve the name, walk the constraints, check the
      time index against the primary key, and assemble the request. */
  method CreateToRequest(tableId: TableId, stmt: CreateTableStmt, fullName: Option<FullName>)
    returns (r: Result<CreateTableRequest, Error>)
    requires TimeIndexColumnsPresent(stmt.constraints)
    ensures r == CreateToRequestSpec(tableId, stmt, fullName)
  {
    if fullName.None? {
      return Err(ParseSql);
    }
    var colMap := ColumnPositions(stmt.columns);
    var walked := CollectConstraints(colMap, stmt.constraints);
    if walked.Err? {
      return Err(walked.error);
    }
    var tsIndex, primaryKeys := walked.value.tsIndex, walked.value.primaryKeys;

    if tsIndex.Some? && tsIndex.value in primaryKeys {
      return Err(InvalidPrimaryKey(TIME_INDEX_IN_PRIMARY_KEY_MSG));
    }
    if tsIndex.None? {
      return Err(MissingTimestampColumn);
    }
    var ts := tsIndex.value;
    ghost var spec := CreateToRequestSpec(tableId, stmt, fullName);
    assert spec.Ok? && spec.value.primaryKeyIndices == if primaryKeys == [] then [ts] else primaryKeys;
    if |primaryKeys| == 0 {
      primaryKeys := primaryKeys + [ts];
    }
    var columnSchemas := ColumnSchemas(stmt.columns, ts);
    r := Ok(CreateTableRequest(
      id := tableId,
      catalogName := fullName.value.catalog,
      schemaName := fullName.value.schema,
      tableName := fullName.value.table,
      desc := None,
      schema := columnSchemas,
      regionNumbers := [0],
      primaryKeyIndices := primaryKeys,
      createIfNotExists := stmt.ifNotExists,
      tableOptions := map[]));
    assert spec.value.schema == columnSchemas;
    assert spec.value.primaryKeyIndices == primaryKeys;
    assert spec.value.tableOptions == map[];
  }

  // ------------------------------------------------------------------ lemmas

  /** Once a prefix of the key columns fails, the whole list fails the same way. */
  lemma {:induction false} PositionsPrefixError(m: map<string, nat>, cols: seq<string>, n: nat)
    requires n <= |cols| && Positions(m, cols[..n]).Err?
    ensures Positions(m, cols) == Positions(m, cols[..n])
    decreases |cols| - n
  {
    if n < |cols| {
      var k := |cols| - 1;
      assert cols[..k][..n] == cols[..n];
      PositionsPrefixError(m, cols[..k], n);
    } else {
      assert cols[..n] == cols;
    }
  }

  /** Once a prefix of the constraints fails, the whole walk fails the same way. */
  lemma {:induction false} WalkPrefixError(m: map<string, nat>, cs: seq<TableConstraint>, n: nat)
    requires TimeIndexColumnsPresent(cs)
    requires n <= |cs| && Walk(m, cs[..n]).Err?
    ensures Walk(m, cs) == Walk(m, cs[..n])
    decreases |cs| - n
  {
    if n < |cs| {
      var k := |cs| - 1;
      assert cs[..k][..n] == cs[..n];
      WalkPrefixError(m, cs[..k], n);
    } else {
      assert cs[..n] == cs;
    }
  }

  lemma PositionsOfAppend(m: map<string, nat>, a: seq<string>, b: seq<string>)
    requires forall i :: 0 <= i < |a| ==> a[i] in m
    requires forall i :: 0 <= i < |b| ==> b[i] in m
    ensures forall i :: 0 <= i < |a + b| ==> (a + b)[i] in m
    ensures PositionsOf(m, a + b) == PositionsOf(m, a) + PositionsOf(m, b)
  {
  }

  /** The walk succeeds exactly when every constraint is accepted. */
  lemma {:induction false} WalkAccepts(m: map<string, nat>, cs: seq<TableConstraint>)
    requires TimeIndexColumnsPresent(cs)
    ensures Walk(m, cs).Ok? <==> forall i :: 0 <= i < |cs| ==> Accepted(m, cs[i])
  {
    if |cs| > 0 {
      var n := |cs| - 1;
      var pre := cs[..n];
      assert forall i :: 0 <= i < n ==> pre[i] == cs[i];
      WalkAccepts(m, pre);
    }
  }

  /** The names the accepted constraints refer to are all known columns. */
  lemma {:induction false} AcceptedColumnsKnown(m: map<string, nat>, cs: seq<TableConstraint>)
    requires TimeIndexColumnsPresent(cs)
    requires forall i :: 0 <= i < |cs| ==> Accepted(m, cs[i])
    ensures forall k :: 0 <= k < |PrimaryKeyColumns(cs)| ==> PrimaryKeyColumns(cs)[k] in m
    ensures TimeIndexColumn(cs).Some? ==> TimeIndexColumn(cs).value in m
  {
    if |cs| > 0 {
      var n := |cs| - 1;
      var pre := cs[..n];
      assert forall i :: 0 <= i < n ==> pre[i] == cs[i];
      AcceptedColumnsKnown(m, pre);
    }
  }

  /** A successful walk holds the position of the last TIME INDEX column and
      the positions of all PRIMARY KEY columns, in constraint order. */
  lemma {:induction false} WalkMeaning(m: map<string, nat>, cs: seq<TableConstraint>)
    requires TimeIndexColumnsPresent(cs)
    requires forall i :: 0 <= i < |cs| ==> Accepted(m, cs[i])
    ensures Walk(m, cs).Ok?
    ensures forall k :: 0 <= k < |PrimaryKeyColumns(cs)| ==> PrimaryKeyColumns(cs)[k] in m
    ensures TimeIndexColumn(cs).Some? ==> TimeIndexColumn(cs).value in m
    ensures && Walk(m, cs).value.primaryKeys == PositionsOf(m, PrimaryKeyColumns(cs))
            && Walk(m, cs).value.tsIndex == (if TimeIndexColumn(cs).Some? then Some(m[TimeIndexColumn(cs).value]) else None)
  {
    WalkAccepts(m, cs);
    AcceptedColumnsKnown(m, cs);
    if |cs| > 0 {
      var n := |cs| - 1;
      var pre := cs[..n];
      var c := cs[n];
      assert forall i :: 0 <= i < n ==> pre[i] == cs[i];
      WalkMeaning(m, pre);
      AcceptedColumnsKnown(m, pre);
      var acc := Walk(m, pre).value;
      assert Walk(m, cs) == ApplyConstraint(m, acc, c);
      var extra := if c.Unique? && c.name.None? && c.isPrimary then c.columns else [];
      assert PrimaryKeyColumns(cs) == PrimaryKeyColumns(pre) + extra;
      if IsTimeIndex(c) {
        assert PrimaryKeyColumns(cs) == PrimaryKeyColumns(pre);
      } else {
        assert extra == c.columns;
        PositionsOfAppend(m, PrimaryKeyColumns(pre), c.columns);
      }
    }
  }

  /** The first refused constraint decides the walk's error. */
  lemma {:induction false} FirstRejectionDecides(m: map<string, nat>, cs: seq<TableConstraint>, i: nat)
    requires TimeIndexColumnsPresent(cs)
    requires i < |cs| && !Accepted(m, cs[i])
    requires forall j :: 0 <= j < i ==> Accepted(m, cs[j])
    ensures Walk(m, cs).Err? && RejectedWith(m, cs[i], Walk(m, cs).error)
  {
    var pre := cs[..i];
    assert forall j :: 0 <= j < i ==> pre[j] == cs[j];
    assert TimeIndexColumnsPresent(pre);
    WalkMeaning(m, pre);
    assert cs[..i + 1][..i] == pre;
    assert Walk(m, cs[..i + 1]).Err?;
    WalkPrefixError(m, cs, i + 1);
  }

  /** Distinct column names have distinct positions, so a position occurs
      among the key positions exactly when its name occurs among the key names. */
  lemma PositionMember(columns: seq<ColumnDef>, cols: seq<string>, name: string)
    requires forall i :: 0 <= i < |cols| ==> cols[i] in ColumnPositions(columns)
    requires name in ColumnPositions(columns)
    ensures ColumnPositions(columns)[name] in PositionsOf(ColumnPositions(columns), cols) <==> name in cols
  {
    var m := ColumnPositions(columns);
    var ps := PositionsOf(m, cols);
    if m[name] in ps {
      var i :| 0 <= i < |ps| && ps[i] == m[name];
      assert columns[m[cols[i]]].name == cols[i];
    }
    if name in cols {
      var i :| 0 <= i < |cols| && cols[i] == name;
      assert ps[i] == m[name];
    }
  }

  /** The handler succeeds exactly when the name resolves, every constraint is
      accepted, there is a TIME INDEX, and its column is not part of the primary key;
      a name that does not resolve fails first, with ParseSql. */
  lemma CreateSucceedsIff(tableId: TableId, stmt: CreateTableStmt, fullName: Option<FullName>)
    requires TimeIndexColumnsPresent(stmt.constraints)
    ensures var m := ColumnPositions(stmt.columns);
            var cs := stmt.constraints;
            CreateToRequestSpec(tableId, stmt, fullName).Ok? <==>
              && fullName.Some?
              && (forall i :: 0 <= i < |cs| ==> Accepted(m, cs[i]))
              && TimeIndexColumn(cs).Some?
              && TimeIndexColumn(cs).value !in PrimaryKeyColumns(cs)
    ensures fullName.None? ==> CreateToRequestSpec(tableId, stmt, fullName) == Err(ParseSql)
  {
    var m := ColumnPositions(stmt.columns);
    var cs := stmt.constraints;
    WalkAccepts(m, cs);
    if Walk(m, cs).Ok? {
      WalkMeaning(m, cs);
      if TimeIndexColumn(cs).Some? {
        PositionMember(stmt.columns, PrimaryKeyColumns(cs), TimeIndexColumn(cs).value);
      }
    }
  }

  /** A successful call walked all constraints, found a TIME INDEX on a known
      column outside the primary key, and knows every key column. */
  lemma CreateSuccessUnfolds(tableId: TableId, stmt: CreateTableStmt, fullName: Option<FullName>)
    requires TimeIndexColumnsPresent(stmt.constraints)
    requires CreateToRequestSpec(tableId, stmt, fullName).Ok?
    ensures var m := ColumnPositions(stmt.columns);
            var cs := stmt.constraints;
            && fullName.Some?
            && TimeIndexColumn(cs).Some? && TimeIndexColumn(cs).value in m
            && TimeIndexColumn(cs).value !in PrimaryKeyColumns(cs)
            && (forall k :: 0 <= k < |PrimaryKeyColumns(cs)| ==> PrimaryKeyColumns(cs)[k] in m)
            && Walk(m, cs) == Ok(Acc(Some(m[TimeIndexColumn(cs).value]), PositionsOf(m, PrimaryKeyColumns(cs))))
  {
    CreateSucceedsIff(tableId, stmt, fullName);
    WalkMeaning(ColumnPositions(stmt.columns), stmt.constraints);
  }

  /** A successful request carries the table id, the resolved names, the
      statement's IF NOT EXISTS flag and the fixed defaults. */
  lemma CreateRequestDefaults(tableId: TableId, stmt: CreateTableStmt, fullName: Option<FullName>)
    requires TimeIndexColumnsPresent(stmt.constraints)
    requires CreateToRequestSpec(tableId, stmt, fullName).Ok?
    ensures fullName.Some?
    ensures var req := CreateToRequestSpec(tableId, stmt, fullName).value;
            && req.id == tableId
            && req.catalogName == fullName.value.catalog
            && req.schemaName == fullName.value.schema
            && req.tableName == fullName.value.table
            && req.desc == None
            && req.regionNumbers == [0]
            && req.tableOptions == map[]
            && req.createIfNotExists == stmt.ifNotExists
  {
    CreateSuccessUnfolds(tableId, stmt, fullName);
  }

  /** In a successful request exactly the column at the time-index position
      is flagged as the time index, and that column is the one the last TIME
      INDEX constraint names. */
  lemma CreateRequestTimeIndex(tableId: TableId, stmt: CreateTableStmt, fullName: Option<FullName>)
    requires TimeIndexColumnsPresent(stmt.constraints)
    requires CreateToRequestSpec(tableId, stmt, fullName).Ok?
    ensures TimeIndexColumn(stmt.constraints).Some?
    ensures TimeIndexColumn(stmt.constraints).value in ColumnPositions(stmt.columns)
    ensures var req := CreateToRequestSpec(tableId, stmt, fullName).value;
            var ts := ColumnPositions(stmt.columns)[TimeIndexColumn(stmt.constraints).value];
            && ts < |stmt.columns|
            && stmt.columns[ts].name == TimeIndexColumn(stmt.constraints).value
            && |req.schema| == |stmt.columns|
            && forall i :: 0 <= i < |stmt.columns| ==>
                 req.schema[i].column == stmt.columns[i] && (req.schema[i].isTimeIndex <==> i == ts)
  {
    CreateSuccessUnfolds(tableId, stmt, fullName);
  }

  /** The primary key of a successful request: the time-index position alone
      when no PRIMARY KEY is given, otherwise the key columns' positions in
      order, which then exclude the time index; every position is a column. */
  lemma CreateRequestPrimaryKey(tableId: TableId, stmt: CreateTableStmt, fullName: Option<FullName>)
    requires TimeIndexColumnsPresent(stmt.constraints)
    requires CreateToRequestSpec(tableId, stmt, fullName).Ok?
    ensures TimeIndexColumn(stmt.constraints).Some?
    ensures TimeIndexColumn(stmt.constraints).value in ColumnPositions(stmt.columns)
    ensures forall k :: 0 <= k < |PrimaryKeyColumns(stmt.constraints)| ==>
              PrimaryKeyColumns(stmt.constraints)[k] in ColumnPositions(stmt.columns)
    ensures var req := CreateToRequestSpec(tableId, stmt, fullName).value;
            var m := ColumnPositions(stmt.columns);
            var cs := stmt.constraints;
            var ts := m[TimeIndexColumn(cs).value];
            && (PrimaryKeyColumns(cs) == [] ==> req.primaryKeyIndices == [ts])
            && (PrimaryKeyColumns(cs) != [] ==>
                  req.primaryKeyIndices == PositionsOf(m, PrimaryKeyColumns(cs)) && ts !in req.primaryKeyIndices)
            && (forall k :: 0 <= k < |req.primaryKeyIndices| ==> req.primaryKeyIndices[k] < |stmt.columns|)
  {
    var m := ColumnPositions(stmt.columns);
    var cs := stmt.constraints;
    CreateSuccessUnfolds(tableId, stmt, fullName);
    PositionMember(stmt.columns, PrimaryKeyColumns(cs), TimeIndexColumn(cs).value);
    var pks := PositionsOf(m, PrimaryKeyColumns(cs));
    assert PrimaryKeyColumns(cs) != [] ==> |pks| > 0;
  }

  /** A refused constraint, with every earlier one accepted, fails the call
      with that constraint's error. */
  lemma CreateRejectsFirstBadConstraint(tableId: TableId, stmt: CreateTableStmt, fullName: Option<FullName>, i: nat)
    requires TimeIndexColumnsPresent(stmt.constraints)
    requires fullName.Some?
    requires i < |stmt.constraints| && !Accepted(ColumnPositions(stmt.columns), stmt.constraints[i])
    requires forall j :: 0 <= j < i ==> Accepted(ColumnPositions(stmt.columns), stmt.constraints[j])
    ensures CreateToRequestSpec(tableId, stmt, fullName).Err?
    ensures RejectedWith(ColumnPositions(stmt.columns), stmt.constraints[i], CreateToRequestSpec(tableId, stmt, fullName).error)
  {
    FirstRejectionDecides(ColumnPositions(stmt.columns), stmt.constraints, i);
  }

  /** Without a TIME INDEX constraint the call fails with MissingTimestampColumn. */
  lemma CreateRequiresTimeIndex(tableId: TableId, stmt: CreateTableStmt, fullName: Option<FullName>)
    requires TimeIndexColumnsPresent(stmt.constraints)
    requires fullName.Some?
    requires forall i :: 0 <= i < |stmt.constraints| ==> Accepted(ColumnPositions(stmt.columns), stmt.constraints[i])
    requires TimeIndexColumn(stmt.constraints).None?
    ensures CreateToRequestSpec(tableId, stmt, fullName) == Err(MissingTimestampColumn)
  {
    WalkMeaning(ColumnPositions(stmt.columns), stmt.constraints);
  }

  /** A time-index column that is also a key column fails the call with InvalidPrimaryKey. */
  lemma CreateRejectsTimeIndexInPrimaryKey(tableId: TableId, stmt: CreateTableStmt, fullName: Option<FullName>)
    requires TimeIndexColumnsPresent(stmt.constraints)
    requires fullName.Some?
    requires forall i :: 0 <= i < |stmt.constraints| ==> Accepted(ColumnPositions(stmt.columns), stmt.constraints[i])
    requires TimeIndexColumn(stmt.constraints).Some?
    requires TimeIndexColumn(stmt.constraints).value in PrimaryKeyColumns(stmt.constraints)
    ensures CreateToRequestSpec(tableId, stmt, fullName) == Err(InvalidPrimaryKey(TIME_INDEX_IN_PRIMARY_KEY_MSG))
  {
    var m := ColumnPositions(stmt.columns);
    var cs := stmt.constraints;
    WalkMeaning(m, cs);
    PositionMember(stmt.columns, PrimaryKeyColumns(cs), TimeIndexColumn(cs).value);
  }

  // ------------------------------------------------- the handler's own tests

  /** The four columns the handler's tests declare: host, ts, cpu, memory. */
  function DemoColumns(tsType: string): seq<ColumnDef> {
    [ColumnDef("host", "string"), ColumnDef("ts", tsType), ColumnDef("cpu", "double"), ColumnDef("memory", "double")]
  }

  function TimeIndexOn(column: string): TableConstraint {
    Unique(Some(TIME_INDEX_NAME), [column], false)
  }

  function PrimaryKeyOn(columns: seq<string>): TableConstraint {
    Unique(None, columns, true)
  }

  /** Each demo column is found at its own position. */
  lemma DemoColumnPositions(cols: seq<ColumnDef>, tsType: string)
    requires cols == DemoColumns(tsType)
    ensures var m := ColumnPositions(cols);
            && "host" in m && m["host"] == 0
            && "ts" in m && m["ts"] == 1
            && "cpu" in m && m["cpu"] == 2
            && "memory" in m && m["memory"] == 3
  {
    var m := ColumnPositions(cols);
    assert |"host"| == 4 && |"ts"| == 2 && |"cpu"| == 3 && |"memory"| == 6;
    assert cols[0].name == "host" && "host" in m;
    assert cols[1].name == "ts" && "ts" in m;
    assert cols[2].name == "cpu" && "cpu" in m;
    assert cols[3].name == "memory" && "memory" in m;
  }

  /** A TIME INDEX followed by a PRIMARY KEY: the first names the time index, the second the key. */
  lemma TimeIndexThenKey(t: string, key: seq<string>)
    ensures var cs := [TimeIndexOn(t), PrimaryKeyOn(key)];
            && TimeIndexColumnsPresent(cs)
            && TimeIndexColumn(cs) == Some(t)
            && PrimaryKeyColumns(cs) == key
  {
    var cs := [TimeIndexOn(t), PrimaryKeyOn(key)];
    assert cs[..1] == [TimeIndexOn(t)] && cs[..1][..0] == [];
    assert PrimaryKeyColumns(cs[..1]) == [];
    assert PrimaryKeyColumns(cs) == [] + key;
  }

  /** Both constraints of a TIME INDEX then PRIMARY KEY pair over declared columns are accepted. */
  lemma TimeIndexThenKeyAccepted(m: map<string, nat>, t: string, key: seq<string>)
    requires t in m
    requires forall k :: 0 <= k < |key| ==> key[k] in m
    ensures var cs := [TimeIndexOn(t), PrimaryKeyOn(key)];
            forall i :: 0 <= i < |cs| ==> Accepted(m, cs[i])
  {
    var cs := [TimeIndexOn(t), PrimaryKeyOn(key)];
    assert Accepted(m, cs[0]) && Accepted(m, cs[1]);
  }

  /** The positions of a one-column key. */
  lemma PositionsOfSingle(m: map<string, nat>, c: string)
    requires c in m
    ensures PositionsOf(m, [c]) == [m[c]]
  {
  }

  /** TIME INDEX (t) then PRIMARY KEY (key) over declared columns, t outside the key: accepted. */
  lemma CreateTimeIndexThenKey(tableId: TableId, stmt: CreateTableStmt, fullName: Option<FullName>,
                               t: string, key: seq<string>)
    requires stmt.constraints == [TimeIndexOn(t), PrimaryKeyOn(key)]
    requires fullName.Some?
    requires t in ColumnPositions(stmt.columns)
    requires forall k :: 0 <= k < |key| ==> key[k] in ColumnPositions(stmt.columns)
    requires t !in key
    ensures TimeIndexColumnsPresent(stmt.constraints)
    ensures TimeIndexColumn(stmt.constraints) == Some(t)
    ensures PrimaryKeyColumns(stmt.constraints) == key
    ensures CreateToRequestSpec(tableId, stmt, fullName).Ok?
  {
    var m := ColumnPositions(stmt.columns);
    var cs := stmt.constraints;
    TimeIndexThenKey(t, key);
    TimeIndexThenKeyAccepted(m, t, key);
    CreateSucceedsIff(tableId, stmt, fullName);
  }

  /** TIME INDEX (ts), PRIMARY KEY (host) over host, ts, cpu, memory: accepted, with the
      names, id and IF NOT EXISTS flag carried over. */
  lemma CreateDemoTable(stmt: CreateTableStmt, fullName: Option<FullName>)
    requires stmt == CreateTableStmt(DemoColumns("timestamp"), [TimeIndexOn("ts"), PrimaryKeyOn(["host"])], false)
    requires fullName == Some(FullName("c", "s", "demo"))
    ensures var r := CreateToRequestSpec(42, stmt, fullName);
            && r.Ok?
            && r.value.id == 42
            && r.value.catalogName == "c" && r.value.schemaName == "s" && r.value.tableName == "demo"
            && !r.value.createIfNotExists
  {
    DemoColumnPositions(stmt.columns, "timestamp");
    assert "ts" !in ["host"];
    CreateTimeIndexThenKey(42, stmt, fullName, "ts", ["host"]);
    CreateRequestDefaults(42, stmt, fullName);
  }

  /** The same request has the key [0]: the position of host. */
  lemma CreateDemoTableKey(stmt: CreateTableStmt, fullName: Option<FullName>)
    requires stmt == CreateTableStmt(DemoColumns("timestamp"), [TimeIndexOn("ts"), PrimaryKeyOn(["host"])], false)
    requires fullName == Some(FullName("c", "s", "demo"))
    ensures var r := CreateToRequestSpec(42, stmt, fullName);
            r.Ok? && r.value.primaryKeyIndices == [0]
  {
    var m := ColumnPositions(stmt.columns);
    DemoColumnPositions(stmt.columns, "timestamp");
    assert "ts" !in ["host"];
    CreateTimeIndexThenKey(42, stmt, fullName, "ts", ["host"]);
    CreateRequestPrimaryKey(42, stmt, fullName);
    PositionsOfSingle(m, "host");
  }

  /** The same request marks position 1 (ts) of its four columns as the time index. */
  lemma CreateDemoTableSchema(stmt: CreateTableStmt, fullName: Option<FullName>)
    requires stmt == CreateTableStmt(DemoColumns("timestamp"), [TimeIndexOn("ts"), PrimaryKeyOn(["host"])], false)
    requires fullName == Some(FullName("c", "s", "demo"))
    ensures var r := CreateToRequestSpec(42, stmt, fullName);
            && r.Ok?
            && |r.value.schema| == 4
            && forall i :: 0 <= i < 4 ==> (r.value.schema[i].isTimeIndex <==> i == 1)
  {
    DemoColumnPositions(stmt.columns, "timestamp");
    assert "ts" !in ["host"];
    CreateTimeIndexThenKey(42, stmt, fullName, "ts", ["host"]);
    CreateRequestTimeIndex(42, stmt, fullName);
  }

  /** A lone PRIMARY KEY over declared columns: refused for want of a time index. */
  lemma CreateKeyWithoutTimeIndex(tableId: TableId, stmt: CreateTableStmt, fullName: Option<FullName>,
                                  key: seq<string>)
    requires stmt.constraints == [PrimaryKeyOn(key)]
    requires fullName.Some?
    requires forall k :: 0 <= k < |key| ==> key[k] in ColumnPositions(stmt.columns)
    ensures CreateToRequestSpec(tableId, stmt, fullName) == Err(MissingTimestampColumn)
  {
    var m := ColumnPositions(stmt.columns);
    var cs := stmt.constraints;
    assert TimeIndexColumn(cs) == None by {
      assert cs[..0] == [];
    }
    assert forall i :: 0 <= i < |cs| ==> Accepted(m, cs[i]) by {
      assert Accepted(m, cs[0]);
    }
    CreateRequiresTimeIndex(tableId, stmt, fullName);
  }

  /** A lone TIME INDEX on a declared column: accepted, and that column is the key. */
  lemma CreateTimeIndexOnly(tableId: TableId, stmt: CreateTableStmt, fullName: Option<FullName>, t: string)
    requires stmt.constraints == [TimeIndexOn(t)]
    requires fullName.Some?
    requires t in ColumnPositions(stmt.columns)
    ensures var m := ColumnPositions(stmt.columns);
            var r := CreateToRequestSpec(tableId, stmt, fullName);
            && r.Ok?
            && r.value.primaryKeyIndices == [m[t]]
            && m[t] < |r.value.schema| && r.value.schema[m[t]].isTimeIndex
  {
    var m := ColumnPositions(stmt.columns);
    var cs := stmt.constraints;
    assert TimeIndexColumn(cs) == Some(t) && PrimaryKeyColumns(cs) == [] by {
      assert cs[..0] == [];
    }
    assert forall i :: 0 <= i < |cs| ==> Accepted(m, cs[i]) by {
      assert Accepted(m, cs[0]);
    }
    CreateSucceedsIff(tableId, stmt, fullName);
    CreateRequestTimeIndex(tableId, stmt, fullName);
    CreateRequestPrimaryKey(tableId, stmt, fullName);
  }

  /** Without TIME INDEX the request is refused with MissingTimestampColumn. */
  lemma CreateWithoutTimeIndex(stmt: CreateTableStmt, fullName: Option<FullName>)
    requires stmt == CreateTableStmt(DemoColumns("bigint"), [PrimaryKeyOn(["host"])], false)
    requires fullName == Some(FullName("c", "s", "demo"))
    ensures CreateToRequestSpec(42, stmt, fullName) == Err(MissingTimestampColumn)
  {
    DemoColumnPositions(stmt.columns, "bigint");
    CreateKeyWithoutTimeIndex(42, stmt, fullName, ["host"]);
  }

  /** Without PRIMARY KEY the time-index column ts, position 1, becomes the key. */
  lemma CreateWithoutPrimaryKey(stmt: CreateTableStmt, fullName: Option<FullName>)
    requires stmt == CreateTableStmt(DemoColumns("timestamp"), [TimeIndexOn("ts")], false)
    requires fullName == Some(FullName("c", "s", "demo"))
    ensures var r := CreateToRequestSpec(42, stmt, fullName);
            && r.Ok?
            && r.value.primaryKeyIndices == [1]
            && r.value.schema[1].isTimeIndex
  {
    DemoColumnPositions(stmt.columns, "timestamp");
    CreateTimeIndexOnly(42, stmt, fullName, "ts");
  }

  /** A TIME INDEX on an undeclared column is refused with KeyColumnNotFound. */
  lemma CreateWithUnknownTimeIndex(stmt: CreateTableStmt, fullName: Option<FullName>)
    requires stmt == CreateTableStmt([ColumnDef("host", "string")], [TimeIndexOn("ts")], false)
    requires fullName == Some(FullName("c", "s", "demo"))
    ensures CreateToRequestSpec(42, stmt, fullName) == Err(KeyColumnNotFound("ts"))
  {
    assert "ts" != "host";
    assert "ts" !in ColumnPositions(stmt.columns);
    CreateRejectsFirstBadConstraint(42, stmt, fullName, 0);
  }

  /** TIME INDEX (t) then PRIMARY KEY (key) over declared columns, t inside the key: refused. */
  lemma CreateTimeIndexInsideKey(tableId: TableId, stmt: CreateTableStmt, fullName: Option<FullName>,
                                 t: string, key: seq<string>)
    requires stmt.constraints == [TimeIndexOn(t), PrimaryKeyOn(key)]
    requires fullName.Some?
    requires t in ColumnPositions(stmt.columns)
    requires forall k :: 0 <= k < |key| ==> key[k] in ColumnPositions(stmt.columns)
    requires t in key
    ensures CreateToRequestSpec(tableId, stmt, fullName) == Err(InvalidPrimaryKey(TIME_INDEX_IN_PRIMARY_KEY_MSG))
  {
    var m := ColumnPositions(stmt.columns);
    var cs := stmt.constraints;
    TimeIndexThenKey(t, key);
    TimeIndexThenKeyAccepted(m, t, key);
    CreateRejectsTimeIndexInPrimaryKey(tableId, stmt, fullName);
  }

  /** PRIMARY KEY (host, cpu, ts) with TIME INDEX (ts) is refused with InvalidPrimaryKey. */
  lemma CreateWithTimeIndexInKey(stmt: CreateTableStmt, fullName: Option<FullName>)
    requires stmt == CreateTableStmt(DemoColumns("timestamp"), [TimeIndexOn("ts"), PrimaryKeyOn(["host", "cpu", "ts"])], false)
    requires fullName == Some(FullName("c", "s", "demo"))
    ensures CreateToRequestSpec(42, stmt, fullName) == Err(InvalidPrimaryKey(TIME_INDEX_IN_PRIMARY_KEY_MSG))
  {
    var key := ["host", "cpu", "ts"];
    DemoColumnPositions(stmt.columns, "timestamp");
    assert key[2] == "ts";
    CreateTimeIndexInsideKey(42, stmt, fullName, "ts", key);
  }
}
