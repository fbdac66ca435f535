/**
 * The query description the compiler accepts: plain immutable data, one
 * datatype per kind of node, and the errors compilation can end in.
 */
module Schema {
  import opened Wrappers
  import opened Fragments

  /**
   * A column reference: a plain column (a name or `*`, with an optional cast
   * type) or a function applied to column parameters; either may carry an alias.
   */
  datatype Column =
    | Plain(name: string, castType: Option<string>, alias: Option<string>)
    | Func(fn: string, parameters: seq<Column>, alias: Option<string>)

  /** The right-hand side of a comparison: a literal value or another column. */
  datatype Operand = Value(value: Literal) | RightColumn(right: Column)

  /** A comparison filter: `column operator operand`. */
  datatype Comparison = Comparison(column: Column, operator: string, operand: Operand)

  /**
   * A filter node: a comparison, or one of the other variants (logical
   * combinations, NOT, IN, LIKE) whose compilers are not part of this model.
   */
  datatype Filter = Compare(comparison: Comparison) | OtherFilter(variant: string)

  /** A join: kind, right-hand table and the predicate it joins on. */
  datatype JoinNode = JoinNode(kind: string, table: string, on: Filter)

  datatype Direction = Asc | Desc

  /** One term of an ORDER BY list. */
  datatype OrderTerm = OrderTerm(column: Column, direction: Direction)

  /** DISTINCT over some columns, optionally DISTINCT ON one leading column. */
  datatype Distinct = Distinct(columns: seq<Column>, on: Option<Column>)

  /**
   * The `table` field of a query: absent, a table name, or a query used as a
   * derived table.
   */
  datatype TableRef = NoTable | Name(name: string) | Nested(query: Query)

  /** A query node; every optional field is `None` when the caller leaves it out. */
  datatype Query = Query(
    action: string,
    table: TableRef,
    columns: Option<seq<Column>>,
    filter: Option<Filter>,
    join: Option<JoinNode>,
    groupBy: Option<seq<Column>>,
    having: Option<Filter>,
    orderBy: Option<seq<OrderTerm>>,
    limit: Option<int>,
    offset: Option<int>,
    distinct: Option<Distinct>)

  /**
   * The three kinds of failure: a malformed query description, a query that
   * the compiler refuses (too deeply nested), and a builder step called out of
   * its contract.
   */
  datatype Error =
    | ValidationError(message: string)
    | QueryError(message: string)
    | InternalError(message: string)
}
