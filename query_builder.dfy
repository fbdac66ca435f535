/**
 * The top-level query compiler. A `QueryBuilder` is constructed from a query
 * description (rejecting excess nesting), validated, prepared (one column
 * builder per column) and built into a statement: the ordered list of clauses
 * attached to the underlying statement builder. Column, filter, join and
 * order-by compilation are done by a `Renderer` whose internals are not part
 * of this model.
 */
module QueryBuilders {
  import opened Wrappers
  import opened Fragments
  import opened Schema

  /** The recognised query actions. */
  const QueryActions: set<string> := {"query", "subquery", "temporary_table"}

  const NestingMessage := "only 1 level deep query allowed"
  const InvalidActionMessage := "query does not contains valid action"
  const TableRequiredMessage := "table is required in the query."
  const GroupByUndefinedMessage := "group_by must be defined when calling this function"
  const DistinctUndefinedMessage := "distinct must be defined when calling this function"

  /** The child compilers a query delegates to, each turning a node into a fragment. */
  datatype Renderer = Renderer(
    column: Column -> Fragment,
    filter: Filter -> Fragment,
    join: JoinNode -> Fragment,
    orderBy: seq<OrderTerm> -> Fragment)

  /** A column builder: the column it was created for, compiled on demand. */
  datatype ColumnBuilder = ColumnBuilder(column: Column) {
    function Build(r: Renderer): Fragment {
      r.column(column)
    }
  }

  /** One call made on the statement builder, in the order it is made. */
  datatype Clause =
    | SelectClause(items: seq<Fragment>)
    | FromRaw(source: Fragment)
    | FromQuery(subquery: seq<Clause>)
    | JoinClause(join: Fragment)
    | WhereClause(condition: Fragment)
    | GroupByClause(groups: Fragment)
    | HavingClause(condition: Fragment)
    | OrderByClause(order: Fragment)
    | LimitClause(count: int)
    | OffsetClause(count: int)

  type Statement = seq<Clause>

  /** The position of each kind of clause in a SELECT statement. */
  function Rank(c: Clause): nat {
    match c
    case SelectClause(_) => 0
    case FromRaw(_) => 1
    case FromQuery(_) => 1
    case JoinClause(_) => 2
    case WhereClause(_) => 3
    case GroupByClause(_) => 4
    case HavingClause(_) => 5
    case OrderByClause(_) => 6
    case LimitClause(_) => 7
    case OffsetClause(_) => 8
  }

  /** A builder is in subquery mode unless it is not forced into it and its action is `query`. */
  predicate SubqueryMode(action: string, forced: bool) {
    !(!forced && action == "query")
  }

  /** The column list, `*` alone when the query gives none. */
  function DefaultColumns(columns: Option<seq<Column>>): seq<Column> {
    if columns.Some? then columns.value else [Plain("*", None, None)]
  }

  /** A table field is given when it is a non-empty name or a query. */
  predicate TableGiven(t: TableRef) {
    match t
    case NoTable => false
    case Name(name) => name != ""
    case Nested(_) => true
  }

  /** The validation run on a constructed builder: the action is recognised and the table given. */
  function OnInit(q: Query): (e: Option<Error>)
    ensures e.None? <==> q.action in QueryActions && TableGiven(q.table)
    ensures e.Some? ==> e.value.ValidationError?
  {
    if q.action !in QueryActions then Some(ValidationError(InvalidActionMessage))
    else if !TableGiven(q.table) then Some(ValidationError(TableRequiredMessage))
    else None
  }

  /** The builders of some columns, compiled, each as a binding. */
  function ColumnBindings(columns: seq<Column>, r: Renderer): (bs: seq<Binding>)
    ensures |bs| == |columns|
  {
    seq(|columns|, i requires 0 <= i < |columns| => Frag(r.column(columns[i])))
  }

  /** GROUP BY: one `?` per column, comma-joined, bound to the compiled columns. */
  function GroupByFragment(groups: seq<Column>, r: Renderer): Fragment {
    Raw(JoinWith(Marks(|groups|), ","), ColumnBindings(groups, r))
  }

  /**
   * DISTINCT: one `?` per column, joined by `, `, bound to the compiled
   * columns; with `on`, preceded by `ON (?)` bound to the compiled `on` column.
   */
  function DistinctFragment(d: Distinct, r: Renderer): Fragment {
    var spots := JoinWith(Marks(|d.columns|), ", ");
    if d.on.Some? then Raw("DISTINCT ON (?) " + spots, [Frag(r.column(d.on.value))] + ColumnBindings(d.columns, r))
    else Raw("DISTINCT " + spots, ColumnBindings(d.columns, r))
  }

  /** The select list: the compiled columns, then the DISTINCT fragment when there is one. */
  function SelectList(q: Query, r: Renderer): seq<Fragment> {
    var columns := DefaultColumns(q.columns);
    seq(|columns|, i requires 0 <= i < |columns| => r.column(columns[i])) +
    (if q.distinct.Some? then [DistinctFragment(q.distinct.value, r)] else [])
  }

  /** Whether the clause of rank `k` is attached: always for select and from, otherwise when its field is set (and, for limit and offset, non-zero). */
  predicate Present(q: Query, k: nat) {
    if k == 0 || k == 1 then true
    else if k == 2 then q.join.Some?
    else if k == 3 then q.filter.Some?
    else if k == 4 then q.groupBy.Some?
    else if k == 5 then q.having.Some?
    else if k == 6 then q.orderBy.Some?
    else if k == 7 then q.limit.Some? && q.limit.value != 0
    else if k == 8 then q.offset.Some? && q.offset.value != 0
    else false
  }

  /** The clause of rank `k` (from join on), built from its field. */
  function ClauseAt(q: Query, r: Renderer, k: nat): (c: Clause)
    requires 2 <= k <= 8 && Present(q, k)
    ensures Rank(c) == k
  {
    if k == 2 then JoinClause(r.join(q.join.value))
    else if k == 3 then WhereClause(r.filter(q.filter.value))
    else if k == 4 then GroupByClause(GroupByFragment(q.groupBy.value, r))
    else if k == 5 then HavingClause(r.filter(q.having.value))
    else if k == 6 then OrderByClause(r.orderBy(q.orderBy.value))
    else if k == 7 then LimitClause(q.limit.value)
    else OffsetClause(q.offset.value)
  }

  /** The optional clauses of rank 2 up to but not including `k` that the query attaches, in rank order. */
  function Attached(q: Query, r: Renderer, k: nat): Statement
    requires 2 <= k <= 9
  {
    if k == 2 then []
    else Attached(q, r, k - 1) + (if Present(q, k - 1) then [ClauseAt(q, r, k - 1)] else [])
  }

  /** The query a non-name table is rebuilt as: its fields with action `temporary_table`. */
  function TemporaryTable(t: TableRef): Query
    requires !t.Name?
  {
    match t
    case Nested(inner) => inner.(action := "temporary_table")
    case NoTable => Query("temporary_table", NoTable, None, None, None, None, None, None, None, None, None)
  }

  /** The FROM clause: `??` bound to a table name, or the table compiled as a forced subquery. */
  function From(q: Query, sub: bool, r: Renderer): Result<Clause, Error>
    requires sub ==> q.table.Name?
    decreases if sub then 0 else 1, 0
  {
    if q.table.Name? then Success(FromRaw(Raw("??", [Ident(q.table.name)])))
    else
      match Compile(TemporaryTable(q.table), true, r)
      case Failure(e) => Failure(e)
      case Success(s) => Success(FromQuery(s))
  }

  /** The statement a constructed, prepared builder produces. */
  function Assemble(q: Query, sub: bool, r: Renderer): Result<Statement, Error>
    requires sub ==> q.table.Name?
    decreases if sub then 0 else 1, 1
  {
    match From(q, sub, r)
    case Failure(e) => Failure(e)
    case Success(from) => Success([SelectClause(SelectList(q, r)), from] + Attached(q, r, 9))
  }

  /** Construct, validate, prepare and build a query, `forced` into subquery mode or not. */
  function Compile(q: Query, forced: bool, r: Renderer): Result<Statement, Error>
    decreases if SubqueryMode(q.action, forced) then 0 else 1, 2
  {
    var sub := SubqueryMode(q.action, forced);
    if OnInit(q).Some? then Failure(OnInit(q).value)
    else if sub && !q.table.Name? then Failure(QueryError(NestingMessage))
    else Assemble(q, sub, r)
  }

  class QueryBuilder {
    const query: Query
    const action: string
    const table: TableRef
    const columns: seq<Column>
    const filter: Option<Filter>
    const join: Option<JoinNode>
    const groupBy: Option<seq<Column>>
    const having: Option<Filter>
    const orderBy: Option<seq<OrderTerm>>
    const limit: Option<int>
    const offset: Option<int>
    const distinct: Option<Distinct>
    const isSubquery: bool

    var colBuilders: seq<ColumnBuilder>

    /** The fields are the query's, columns defaulted; a subquery's table is a name. */
    predicate Valid() {
      action == query.action && table == query.table && columns == DefaultColumns(query.columns) &&
      filter == query.filter && join == query.join && groupBy == query.groupBy &&
      having == query.having && orderBy == query.orderBy && limit == query.limit &&
      offset == query.offset && distinct == query.distinct &&
      (isSubquery ==> table.Name?) && (!isSubquery ==> action == "query")
    }

    /** There is one column builder per column, in column order. */
    predicate Prepared()
      reads this
    {
      |colBuilders| == |columns| &&
      forall i :: 0 <= i < |columns| ==> colBuilders[i] == ColumnBuilder(columns[i])
    }

    /**
     * The constructor proper, for a query that passes validation and the nesting
     * check. The source's constructor throws when either fails; a Dafny constructor
     * cannot fail, so `New` makes both checks and calls this one only when they pass.
     */
    constructor (query: Query, forced: bool)
      requires !(SubqueryMode(query.action, forced) && !query.table.Name?)
      ensures Valid() && this.query == query && colBuilders == []
      ensures isSubquery <==> forced || query.action != "query"
      ensures columns == (if query.columns.None? then [Plain("*", None, None)] else query.columns.value)
    {
      this.query := query;
      this.action := query.action;
      this.isSubquery := SubqueryMode(query.action, forced);
      this.table := query.table;
      this.columns := DefaultColumns(query.columns);
      this.filter := query.filter;
      this.join := query.join;
      this.groupBy := query.groupBy;
      this.having := query.having;
      this.orderBy := query.orderBy;
      this.limit := query.limit;
      this.offset := query.offset;
      this.distinct := query.distinct;
      this.colBuilders := [];
    }

    /** Creates the column builders, one per column, in order. */
    method BeforeBuild()
      modifies this
      ensures Prepared()
    {
      colBuilders := seq(|columns|, i requires 0 <= i < |columns| => ColumnBuilder(columns[i]));
    }

    /** The GROUP BY fragment; an error when the query has no group_by. */
    method BuildGroupBy(r: Renderer) returns (res: Result<Fragment, Error>)
      ensures groupBy.None? ==> res == Failure(InternalError(GroupByUndefinedMessage))
      ensures groupBy.Some? ==> res == Success(GroupByFragment(groupBy.value, r))
      ensures groupBy.Some? ==> Placeholders(res.value.text) == |res.value.bindings| == |groupBy.value|
    {
      if groupBy.None? {
        return Failure(InternalError(GroupByUndefinedMessage));
      }
      var groups := groupBy.value;
      var spots: seq<string> := [];
      var builders: seq<ColumnBuilder> := [];
      var i := 0;
      while i < |groups|
        invariant 0 <= i <= |groups|
        invariant spots == Marks(i)
        invariant |builders| == i
        invariant forall k :: 0 <= k < i ==> builders[k] == ColumnBuilder(groups[k])
      {
        spots := spots + ["?"];
        builders := builders + [ColumnBuilder(groups[i])];
        i := i + 1;
      }
      var built := seq(|builders|, k requires 0 <= k < |builders| => Frag(builders[k].Build(r)));
      assert built == ColumnBindings(groups, r);
      res := Success(Raw(JoinWith(spots, ","), built));
      MarksPlaceholders(|groups|, ",");
    }

    /** The DISTINCT fragment; an error when the query has no distinct. */
    method BuildDistinct(r: Renderer) returns (res: Result<Fragment, Error>)
      ensures distinct.None? ==> res == Failure(InternalError(DistinctUndefinedMessage))
      ensures distinct.Some? ==> res == Success(DistinctFragment(distinct.value, r))
      ensures distinct.Some? ==> Placeholders(res.value.text) == |res.value.bindings|
    {
      if distinct.None? {
        return Failure(InternalError(DistinctUndefinedMessage));
      }
      var d := distinct.value;
      var spot: seq<string> := [];
      var colBuilds: seq<Binding> := [];
      var i := 0;
      while i < |d.columns|
        invariant 0 <= i <= |d.columns|
        invariant spot == Marks(i)
        invariant colBuilds == ColumnBindings(d.columns[..i], r)
      {
        spot := spot + ["?"];
        colBuilds := colBuilds + [Frag(ColumnBuilder(d.columns[i]).Build(r))];
        i := i + 1;
      }
      assert d.columns[..i] == d.columns;
      var spots := JoinWith(spot, ", ");
      MarksPlaceholders(|d.columns|, ", ");
      if d.on.Some? {
        res := Success(Raw("DISTINCT ON (?) " + spots, [Frag(ColumnBuilder(d.on.value).Build(r))] + colBuilds));
        DistinctOnPlaceholders(spots);
      } else {
        res := Success(Raw("DISTINCT " + spots, colBuilds));
        PlaceholdersAfterPlain("DISTINCT ", spots);
      }
    }

    /**
     * Builds the statement: the select list, FROM, then each optional clause in
     * fixed order. A nested table is compiled by a fresh builder forced into
     * subquery mode.
     */
    method Build(r: Renderer) returns (res: Result<Statement, Error>)
      requires Valid() && Prepared()
      ensures res == Assemble(query, isSubquery, r)
      decreases if isSubquery then 0 else 1, 1
    {
      var builders := colBuilders;
      var selectBuilders := seq(|builders|, i requires 0 <= i < |builders| => builders[i].Build(r));
      assert selectBuilders == seq(|columns|, i requires 0 <= i < |columns| => r.column(columns[i]));
      if distinct.Some? {
        var d := BuildDistinct(r);
        selectBuilders := selectBuilders + [d.value];
      }
      assert selectBuilders == SelectList(query, r);
      var stmt: Statement := [SelectClause(selectBuilders)];
      if table.Name? {
        stmt := stmt + [FromRaw(Raw("??", [Ident(table.name)]))];
      } else {
        var temporary := Translate(TemporaryTable(table), true, r);
        if temporary.Failure? {
          assert From(query, isSubquery, r) == Failure(temporary.error);
          return Failure(temporary.error);
        }
        stmt := stmt + [FromQuery(temporary.value)];
      }
      assert Success(stmt[1]) == From(query, isSubquery, r);
      assert stmt == [SelectClause(SelectList(query, r)), stmt[1]];
      stmt := AttachClauses(r, stmt);
      res := Success(stmt);
    }

    /** Attaches join, where, group by, having, order by, limit and offset, each when its field is set. */
    method AttachClauses(r: Renderer, head: Statement) returns (stmt: Statement)
      requires Valid()
      ensures stmt == head + Attached(query, r, 9)
    {
      stmt := head;
      assert stmt == head + Attached(query, r, 2);
      AttachedNext(query, r, 2, head);
      if join.Some? {
        stmt := stmt + [JoinClause(r.join(join.value))];
      }
      assert stmt == head + Attached(query, r, 3);
      AttachedNext(query, r, 3, head);
      if filter.Some? {
        stmt := stmt + [WhereClause(r.filter(filter.value))];
      }
      assert stmt == head + Attached(query, r, 4);
      AttachedNext(query, r, 4, head);
      if groupBy.Some? {
        var groups := BuildGroupBy(r);
        stmt := stmt + [GroupByClause(groups.value)];
      }
      assert stmt == head + Attached(query, r, 5);
      AttachedNext(query, r, 5, head);
      if having.Some? {
        stmt := stmt + [HavingClause(r.filter(having.value))];
      }
      assert stmt == head + Attached(query, r, 6);
      AttachedNext(query, r, 6, head);
      if orderBy.Some? {
        stmt := stmt + [OrderByClause(r.orderBy(orderBy.value))];
      }
      assert stmt == head + Attached(query, r, 7);
      AttachedNext(query, r, 7, head);
      if limit.Some? && limit.value != 0 {
        stmt := stmt + [LimitClause(limit.value)];
      }
      assert stmt == head + Attached(query, r, 8);
      AttachedNext(query, r, 8, head);
      if offset.Some? && offset.value != 0 {
        stmt := stmt + [OffsetClause(offset.value)];
      }
      assert stmt == head + Attached(query, r, 9);
    }
  }

  /** Attaching up to rank `k + 1` is attaching up to `k`, then the clause of rank `k` if present. */
  lemma AttachedNext(q: Query, r: Renderer, k: nat, head: Statement)
    requires 2 <= k <= 8
    ensures head + Attached(q, r, k + 1) == (head + Attached(q, r, k)) + (if Present(q, k) then [ClauseAt(q, r, k)] else [])
  {
  }

  /** `DISTINCT ON (` and `) ` add no placeholder around the single `?`. */
  lemma DistinctOnPlaceholders(spots: string)
    ensures Placeholders("DISTINCT ON (?) " + spots) == 1 + Placeholders(spots)
  {
    assert "DISTINCT ON (?) " + spots == "DISTINCT ON (" + ("?" + (") " + spots));
    PlaceholdersAfterPlain("DISTINCT ON (", "?" + (") " + spots));
    PlaceholdersOfMark(") " + spots);
    PlaceholdersAfterPlain(") ", spots);
  }

  /**
   * Constructing a builder: the base class validates the query first (`OnInit`),
   * then the builder rejects with "only 1 level deep query allowed" a query in
   * subquery mode whose table is not a name.
   */
  method New(query: Query, forced: bool) returns (res: Result<QueryBuilder, Error>)
    ensures res.Failure? <==>
      OnInit(query).Some? || (SubqueryMode(query.action, forced) && !query.table.Name?)
    ensures OnInit(query).Some? ==> res == Failure(OnInit(query).value)
    ensures OnInit(query).None? && res.Failure? ==> res.error == QueryError(NestingMessage)
    ensures res.Success? ==>
      fresh(res.value) && res.value.Valid() && res.value.query == query &&
      res.value.isSubquery == SubqueryMode(query.action, forced) && res.value.colBuilders == []
  {
    var invalid := OnInit(query);
    if invalid.Some? {
      return Failure(invalid.value);
    }
    if SubqueryMode(query.action, forced) && !query.table.Name? {
      return Failure(QueryError(NestingMessage));
    }
    var builder := new QueryBuilder(query, forced);
    res := Success(builder);
  }

  /** The whole life of one builder: construct (validating), prepare, build. */
  method Translate(query: Query, forced: bool, r: Renderer) returns (res: Result<Statement, Error>)
    ensures res == Compile(query, forced, r)
    decreases if SubqueryMode(query.action, forced) then 0 else 1, 2
  {
    var created := New(query, forced);
    if created.Failure? {
      return Failure(created.error);
    }
    var builder := created.value;
    builder.BeforeBuild();
    res := builder.Build(r);
  }
}
