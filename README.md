# parcelQL query compiler — a Dafny model

parcelQL turns a JSON-shaped query description into SQL text with positional
bindings, by way of the knex statement builder. This project models the
top-level query compiler, `QueryBuilder`, and the comparison-filter compiler as
its tests pin it down. It then proves what they guarantee:

- subqueries nest at most one level;
- given child compilers that cannot fail, a query compiles exactly when its action
  is recognised, its table is given and its nesting is allowed; otherwise it fails
  with the error of the first rule it breaks, validation (action, then table)
  coming before the nesting check;
- each optional clause is attached exactly when its field is set (limit and offset
  only when non-zero), and always in SELECT order;
- every fragment the compiler makes has one binding per placeholder, in order.

Files:

- `wrappers.dfy`: `Option` and `Result`.
- `fragments.dfy`: a `Fragment` is raw text with placeholders plus ordered bindings.
  Placeholders are counted knex-style: `??` is one identifier placeholder and any
  other `?` is one value placeholder. The file also holds lemmas about joined `?` lists.
- `schema.dfy`: the query description (query, table reference, column, comparison,
  filter, join, order-by, distinct) and the three error kinds. `ValidationError`
  stands for `ParcelQLValidationError`, `QueryError` for `ParcelQLError`, and
  `InternalError` for a plain `Error`.
- `comp_filter.dfy`: the comparison compiler. It checks the operator at construction
  and renders `column op ?` or `column op column` with sqlite3 backtick quoting.
- `query_builder.dfy`: class `QueryBuilder`, whose fields are `const`, as the
  source's are `readonly`, except for `colBuilders`. It has the constructor,
  `BeforeBuild`, `BuildGroupBy`, `BuildDistinct` and `Build`. The module-level
  method `New` stands for the constructor as callers see it: it runs the
  validation hook `OnInit`, then the constructor's nesting check. `Translate` is the whole life of one builder. Beside them are the
  specification functions (`Compile`, `Assemble`, `From`, `Attached`, …) that
  the methods are proved equal to.
- `query_builder_properties.dfy`: the lemmas about `Compile`.

The knex statement builder is modelled as a `Statement`: the list of clauses
attached to it, in the order the builder attaches them (`SelectClause`,
`FromRaw`/`FromQuery`, `JoinClause`, `WhereClause`, `GroupByClause`,
`HavingClause`, `OrderByClause`, `LimitClause`, `OffsetClause`). The column,
filter, join and order-by compilers are a `Renderer`: a record of functions
from node to fragment, passed in as a parameter.

The model follows the code in three places where a reader might expect otherwise:

- `DISTINCT` is appended after the compiled columns in the select list, not
  prefixed to it (query-builder.ts:119-123).
- Limit and offset are attached when truthy, so any non-zero value, negative ones
  included, is attached (query-builder.ts:163-169).
- Excess nesting raises `ParcelQLError`, not a validation error (query-builder.ts:46-48).

Compiling is a function, so compiling the same query twice gives the same
statement by construction.

## Model

| member | source | states |
|---|---|---|
| `QueryBuilders.QueryBuilder.constructor` | src/query-builders/query-builder.ts:39-59 | the fields are the query's; `isSubquery` holds exactly when the caller forces it or the action is not `query`; the columns are the query's columns, or `[{column:'*'}]` when absent |
| `QueryBuilders.New` | src/query-builders/query-builder.ts:39-48 | construction first validates the query (the base constructor's `onInit`) and fails with its validation error; a valid query then fails exactly when the builder is in subquery mode and its table is not a name, with `QueryError("only 1 level deep query allowed")` |
| `QueryBuilders.OnInit` | src/query-builders/query-builder.ts:61-72 | no error exactly when the action is a recognised one and the table is given (a non-empty name or a query); every error it reports is a validation error |
| `QueryBuilders.QueryBuilder.BeforeBuild` | src/query-builders/query-builder.ts:74-79 | afterwards there is exactly one column builder per column, in column order |
| `QueryBuilders.QueryBuilder.BuildGroupBy` | src/query-builders/query-builder.ts:81-95 | with `group_by` unset it fails with the "group_by must be defined" error; otherwise it returns the GROUP BY fragment, whose placeholder count equals its binding count equals the number of group-by columns |
| `QueryBuilders.QueryBuilder.BuildDistinct` | src/query-builders/query-builder.ts:97-116 | with `distinct` unset it fails with the "distinct must be defined" error; otherwise it returns the DISTINCT fragment, with as many placeholders as bindings |
| `QueryBuilders.QueryBuilder.Build` | src/query-builders/query-builder.ts:118-171 | for a valid, prepared builder the statement built is the specification `Assemble` of its query and mode: select list, FROM (name as `??`, or the nested table compiled as a forced subquery, whose failure is the build's failure), then the optional clauses |
| `QueryBuilders.QueryBuilder.AttachClauses` | src/query-builders/query-builder.ts:138-169 | the statement gains join, where, group by, having, order by, limit and offset clauses, each exactly when its field is set, in that order |
| `QueryBuilders.Translate` | src/query-builders/query-builder.ts:127-135 | constructing (which validates), preparing and building a query gives exactly `Compile` of it |
| `QueryBuilderProperties.CompiledNestingDepth` | src/query-builders/query-builder.ts:46-48 | a query that compiles has at most one level of nested query below its table, and none in subquery mode |
| `QueryBuilderProperties.TwoLevelsRejected` | src/query-builders/query-builder.ts:127-133 | a query with a recognised action whose table is a query whose table is again a query always fails with `QueryError("only 1 level deep query allowed")`, in either mode |
| `QueryBuilderProperties.CompileSucceedsIff` | src/query-builders/query-builder.ts:44-71 | a query compiles exactly when it satisfies `Acceptable`, an independent statement of the rules: a recognised action and a non-empty name as table; or, outside subquery mode, a query as table whose own table is a non-empty name |
| `QueryBuilderProperties.CompileErrors` | src/query-builders/query-builder.ts:43-71 | the error of a failing query: the invalid-action validation error for an unrecognised action; otherwise the table-required validation error for a missing or empty table; otherwise the nesting error when in subquery mode without a name table |
| `QueryBuilderProperties.ClausesInOrder` | src/query-builders/query-builder.ts:118-171 | the clauses of every compiled statement come in strictly increasing SELECT order: select, from, join, where, group by, having, order by, limit, offset |
| `QueryBuilderProperties.ClausePresence` | src/query-builders/query-builder.ts:138-169 | a clause of each kind is in the compiled statement exactly when its field is set (for limit and offset: set and non-zero); select and from are always there |
| `QueryBuilderProperties.ClauseContents` | src/query-builders/query-builder.ts:119-169 | the first clause is the select list; the second is `??` bound to the table name, or the nested table's own compiled statement; every later clause is the compiled field of its kind |
| `QueryBuilderProperties.ZeroLimitOffsetOmitted` | src/query-builders/query-builder.ts:163-169 | a limit or an offset of 0 attaches no LIMIT or OFFSET clause |
| `QueryBuilderProperties.SelectListShape` | src/query-builders/query-builder.ts:119-123 | the select list is the compiled columns in input order (`*` when no columns are given), followed, not preceded, by the DISTINCT fragment when `distinct` is set |
| `QueryBuilderProperties.GroupByFragmentShape` | src/query-builders/query-builder.ts:86-94 | GROUP BY text is n `?` joined by `,`, with exactly n placeholders and n bindings, the i-th binding being the i-th compiled group-by column |
| `QueryBuilderProperties.DistinctFragmentShape` | src/query-builders/query-builder.ts:102-115 | with `on`: text `DISTINCT ON (?) ` then n `?` joined by `, `, bindings the compiled `on` column then the compiled columns in order; without: `DISTINCT ` then the marks, bindings the compiled columns; either way, placeholders equal bindings |
| `QueryBuilderProperties.CompiledBalanced` | src/query-builders/query-builder.ts:118-170 | if the child compilers keep placeholders and bindings in step, so does every fragment of the compiled statement, down into a nested derived table |
| `CompFilter.NewComparison` | src/query-builders/filter-query-builder/comp-filter-query-builder.spec.ts:23-31 | construction succeeds exactly when the operator is supported, and otherwise fails with the validation error `filter operator "<op>" is not supported.` |
| `CompFilter.BuildComparison` | src/query-builders/filter-query-builder/comp-filter-query-builder.spec.ts:22-42 | constructing then building fails exactly when the operator is unsupported, with the construction's validation error naming the operator, so no build happens; a success is the compiled comparison |
| `CompFilter.CompileComparison` | src/query-builders/filter-query-builder/comp-filter-query-builder.spec.ts:33-73 | the text starts with the rendered left column and the operator; against a value it ends in `?` and binds exactly `[value]`; against a right column it ends in the rendered right column and binds nothing |
| `CompFilter.RenderColumn` | src/query-builders/filter-query-builder/comp-filter-query-builder.spec.ts:33-73 | a column renders to non-empty text: a named column without cast is `*` or its backtick-quoted name, any other named column starts with a backtick, and a function column is its name, `(`, …, `)` |
| `CompFilter.ValueComparisonBindsOnce` | src/query-builders/filter-query-builder/comp-filter-query-builder.spec.ts:33-42 | a comparison against a value whose names and operator contain no `?` (`PlainComparison`) compiles to `left op ?`, with exactly one placeholder and the bindings `[value]` |
| `CompFilter.RightColumnHasNoPlaceholder` | src/query-builders/filter-query-builder/comp-filter-query-builder.spec.ts:44-54 | a comparison against a right column whose names and operator contain no `?` (`PlainComparison`) compiles to `left op right`, with no placeholder and no binding |
| `CompFilter.ComparisonBalanced` | src/query-builders/filter-query-builder/comp-filter-query-builder.spec.ts:33-54 | every compiled comparison whose names and operator contain no `?` (`PlainComparison`) has one binding per placeholder |
| `CompFilter.RenderedColumnIsPlain` | src/query-builders/filter-query-builder/comp-filter-query-builder.spec.ts:56-73 | a column, function columns included, whose names contain no `?` renders to text that contains no `?` |
| `CompFilter.RejectsPercent` | src/query-builders/filter-query-builder/comp-filter-query-builder.spec.ts:23-31 | `{column:'a', operator:'%', value:2}` fails with exactly `filter operator "%" is not supported.` |
| `CompFilter.ComparesWithValue` | src/query-builders/filter-query-builder/comp-filter-query-builder.spec.ts:33-42 | `{column:'a', operator:'>', value:2}` compiles to `` `a` > ? `` with bindings `[2]` |
| `CompFilter.ComparesWithRightColumn` | src/query-builders/filter-query-builder/comp-filter-query-builder.spec.ts:44-54 | `{column:'a', operator:'>', rightColumn:{column:'b'}}` compiles to `` `a` > `b` `` with no bindings |
| `CompFilter.ComparesFunctionColumn` | src/query-builders/filter-query-builder/comp-filter-query-builder.spec.ts:56-73 | `COUNT` of `{column:'a', type:'integer'}` compared with `> 24` compiles to ``COUNT(`a`::integer) > ?`` with bindings `[24]` |

## Left out

- knex: identifier quoting, dialect rendering, how a nested statement's bindings are inlined, and `toSQL`. The statement builder is the list of clauses attached to it.
- `BaseQueryBuilder` (src/query-builders/base-query-builder) is not part of this model. Its build-once caching is not modelled, and no idempotence is claimed. It is taken to run `onInit` from its constructor, which `QueryBuilder`'s constructor calls (`super(query)`) before its own nesting check; so `New` runs `OnInit`, then the nesting check, and `Translate` then runs `BeforeBuild` and `Build`.
- `ColumnQueryBuilder`, `FilterBuilder`, `JoinBuilder` and `OrderByQueryBuilder` are not part of this model. They are the opaque `Renderer` functions and cannot fail. Any validation errors they raise are not modelled, and neither is the meaning of the `false` argument given to `OrderByQueryBuilder`.
- Join nodes carry a table name only. A query used as a join table, and its nesting rule, are not modelled.
- `queryActions` (src/schema) is not part of this model. The recognised actions are taken to be the three values of the `action` field's type: `query`, `subquery`, `temporary_table`.
- The comparison compiler's source (comp-filter-query-builder.ts) is not part of this model. Its operator whitelist is a parameter `ops`. The scenario lemmas assume only that `>` is in it and `%` is not. The rejection is modelled as a `ValidationError`, but the test pins only the message.
- `CompFilter.RenderColumn`: the tests pin quoting, casts and a one-parameter function. The `,` between function parameters, the unquoted `*` and the dropped alias are modelling choices the tests do not pin. A qualified name such as `t.a` is quoted as one identifier, `` `t.a` ``, where the sqlite3 dialect quotes each dot-separated part, `` `t`.`a` ``.
- Filter variants other than comparison (AND/OR, NOT, IN, LIKE) are only named, as `OtherFilter`. The source's tests do not cover them.
- The test suite's in-memory sqlite3 connection and its asynchronous teardown are I/O.
- Limit and offset are integers. JavaScript's `NaN`, which is falsy, is not modelled.
