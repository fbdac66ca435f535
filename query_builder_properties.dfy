/**
 * What the query compiler guarantees: subqueries nest at most one level, a
 * query compiles exactly when it is acceptable (and otherwise fails with the
 * error its first violated rule names), clauses are attached exactly when
 * their fields are set and always in SELECT order, and every fragment the
 * compiler makes has one binding per placeholder.
 */
module QueryBuilderProperties {
  import opened Wrappers
  import opened Fragments
  import opened Schema
  import opened QueryBuilders

  /** How many levels of queries are nested below a table field. */
  function NestingDepth(t: TableRef): nat {
    match t
    case Nested(q) => 1 + NestingDepth(q.table)
    case _ => 0
  }

  /** The rules a query must satisfy to compile, stated independently of the compiler. */
  predicate Acceptable(q: Query, forced: bool) {
    q.action in QueryActions &&
    match q.table
    case NoTable => false
    case Name(name) => name != ""
    case Nested(inner) =>
      !SubqueryMode(q.action, forced) && inner.table.Name? && inner.table.name != ""
  }

  /** A query that compiles nests at most one level, and none at all in subquery mode. */
  lemma {:induction false} CompiledNestingDepth(q: Query, forced: bool, r: Renderer)
    requires Compile(q, forced, r).Success?
    ensures NestingDepth(q.table) <= if SubqueryMode(q.action, forced) then 0 else 1
    decreases if SubqueryMode(q.action, forced) then 0 else 1
  {
    if q.table.Nested? {
      var sub := SubqueryMode(q.action, forced);
      assert !sub;
      assert From(q, sub, r).Success?;
      CompiledNestingDepth(TemporaryTable(q.table), true, r);
    }
  }

  /**
   * A query with a recognised action whose table is a query whose table is
   * again a query is refused for its nesting, in either mode.
   */
  lemma TwoLevelsRejected(q: Query, forced: bool, r: Renderer)
    requires q.action in QueryActions
    requires q.table.Nested? && q.table.query.table.Nested?
    ensures Compile(q, forced, r) == Failure(QueryError(NestingMessage))
  {
    var sub := SubqueryMode(q.action, forced);
    if !sub {
      var inner := TemporaryTable(q.table);
      assert Compile(inner, true, r) == Failure(QueryError(NestingMessage));
      assert From(q, sub, r) == Failure(QueryError(NestingMessage));
    }
  }

  /** A compiled statement is the select list, the FROM clause, then the attached clauses. */
  lemma CompiledStatement(q: Query, forced: bool, r: Renderer)
    requires Compile(q, forced, r).Success?
    ensures var sub := SubqueryMode(q.action, forced);
      (sub ==> q.table.Name?) && From(q, sub, r).Success? &&
      Compile(q, forced, r).value == [SelectClause(SelectList(q, r)), From(q, sub, r).value] + Attached(q, r, 9)
  {
  }

  /** A query compiles exactly when it is acceptable. */
  lemma CompileSucceedsIff(q: Query, forced: bool, r: Renderer)
    ensures Compile(q, forced, r).Success? <==> Acceptable(q, forced)
  {
    var sub := SubqueryMode(q.action, forced);
    if !(sub && !q.table.Name?) && OnInit(q).None? {
      assert Compile(q, forced, r) == Assemble(q, sub, r);
      assert Compile(q, forced, r).Success? <==> From(q, sub, r).Success?;
      if q.table.Nested? {
        var inner := TemporaryTable(q.table);
        assert SubqueryMode(inner.action, true);
        assert inner.table == q.table.query.table;
        assert From(q, sub, r).Success? <==> Compile(inner, true, r).Success?;
        assert Compile(inner, true, r).Success? <==> inner.table.Name? && inner.table.name != "";
      }
    }
  }

  /**
   * Which error a query that does not compile ends in: validation comes first,
   * the action before the table, and the nesting check only after both pass.
   */
  lemma CompileErrors(q: Query, forced: bool, r: Renderer)
    ensures q.action !in QueryActions ==>
      Compile(q, forced, r) == Failure(ValidationError(InvalidActionMessage))
    ensures q.action in QueryActions && !TableGiven(q.table) ==>
      Compile(q, forced, r) == Failure(ValidationError(TableRequiredMessage))
    ensures q.action in QueryActions && TableGiven(q.table) && SubqueryMode(q.action, forced) && !q.table.Name? ==>
      Compile(q, forced, r) == Failure(QueryError(NestingMessage))
  {
  }

  /** The clauses are in strictly increasing SELECT order. */
  predicate InRankOrder(s: Statement) {
    forall i, j :: 0 <= i < j < |s| ==> Rank(s[i]) < Rank(s[j])
  }

  /** Some clause of the statement has rank `k`. */
  predicate HasRank(s: Statement, k: nat) {
    exists i :: 0 <= i < |s| && Rank(s[i]) == k
  }

  /** Each clause is the compiled field of its rank (join to offset), and that field is present. */
  predicate FieldClauses(q: Query, r: Renderer, s: Statement) {
    forall i :: 0 <= i < |s| ==>
      2 <= Rank(s[i]) <= 8 && Present(q, Rank(s[i])) && s[i] == ClauseAt(q, r, Rank(s[i]))
  }

  /** Each attached clause below rank `k` is the compiled field of its rank, which is present. */
  lemma {:induction false} AttachedContents(q: Query, r: Renderer, k: nat)
    requires 2 <= k <= 9
    ensures FieldClauses(q, r, Attached(q, r, k))
    ensures forall i :: 0 <= i < |Attached(q, r, k)| ==> Rank(Attached(q, r, k)[i]) < k
    decreases k
  {
    if k > 2 {
      AttachedContents(q, r, k - 1);
      var before := Attached(q, r, k - 1);
      var a := Attached(q, r, k);
      forall i | 0 <= i < |a|
        ensures 2 <= Rank(a[i]) < k && Present(q, Rank(a[i])) && a[i] == ClauseAt(q, r, Rank(a[i]))
      {
        if i < |before| {
          assert a[i] == before[i];
        } else {
          assert Present(q, k - 1) && a == before + [ClauseAt(q, r, k - 1)];
          assert a[i] == ClauseAt(q, r, k - 1);
        }
      }
    }
  }

  /** The attached clauses come in strictly increasing rank. */
  lemma {:induction false} AttachedOrdered(q: Query, r: Renderer, k: nat)
    requires 2 <= k <= 9
    ensures InRankOrder(Attached(q, r, k))
    decreases k
  {
    if k > 2 {
      AttachedOrdered(q, r, k - 1);
      AttachedContents(q, r, k - 1);
      var before := Attached(q, r, k - 1);
      var a := Attached(q, r, k);
      if Present(q, k - 1) {
        assert a == before + [ClauseAt(q, r, k - 1)];
        forall i, j | 0 <= i < j < |a|
          ensures Rank(a[i]) < Rank(a[j])
        {
          assert a[i] == before[i];
          if j < |before| {
            assert a[j] == before[j];
          } else {
            assert a[j] == ClauseAt(q, r, k - 1);
          }
        }
      } else {
        assert a == before;
      }
    }
  }

  /** Every present rank below `k` has its clause attached. */
  lemma {:induction false} AttachedComplete(q: Query, r: Renderer, k: nat, j: nat)
    requires 2 <= j < k <= 9 && Present(q, j)
    ensures HasRank(Attached(q, r, k), j)
    decreases k
  {
    var before := Attached(q, r, k - 1);
    var a := Attached(q, r, k);
    if j == k - 1 {
      assert a == before + [ClauseAt(q, r, j)];
      assert Rank(a[|a| - 1]) == j;
    } else {
      AttachedComplete(q, r, k - 1, j);
      var i :| 0 <= i < |before| && Rank(before[i]) == j;
      assert a[i] == before[i] by {
        if Present(q, k - 1) {
          assert a == before + [ClauseAt(q, r, k - 1)];
        } else {
          assert a == before;
        }
      }
    }
  }

  /** The clauses of a compiled statement come in strictly increasing SELECT order. */
  lemma ClausesInOrder(q: Query, forced: bool, r: Renderer)
    requires Compile(q, forced, r).Success?
    ensures InRankOrder(Compile(q, forced, r).value)
  {
    CompiledStatement(q, forced, r);
    AttachedContents(q, r, 9);
    AttachedOrdered(q, r, 9);
    var s := Compile(q, forced, r).value;
    var a := Attached(q, r, 9);
    assert s[2..] == a;
    forall i, j | 0 <= i < j < |s|
      ensures Rank(s[i]) < Rank(s[j])
    {
      if i >= 2 {
        assert s[i] == a[i - 2] && s[j] == a[j - 2];
      } else if j >= 2 {
        assert s[j] == a[j - 2];
      }
    }
  }

  /** A clause of each rank is attached exactly when the query calls for it. */
  lemma ClausePresence(q: Query, forced: bool, r: Renderer, k: nat)
    requires Compile(q, forced, r).Success?
    ensures HasRank(Compile(q, forced, r).value, k) <==> Present(q, k)
  {
    CompiledStatement(q, forced, r);
    AttachedContents(q, r, 9);
    var s := Compile(q, forced, r).value;
    var a := Attached(q, r, 9);
    assert s[2..] == a;
    if k <= 1 {
      assert Rank(s[k]) == k;
    } else if Present(q, k) {
      assert k <= 8;
      AttachedComplete(q, r, 9, k);
      var i :| 0 <= i < |a| && Rank(a[i]) == k;
      assert s[i + 2] == a[i];
    } else {
      forall i | 0 <= i < |s|
        ensures Rank(s[i]) != k
      {
        if i >= 2 {
          assert s[i] == a[i - 2];
        }
      }
    }
  }

  /**
   * What each clause of a compiled statement holds: the select list first, the
   * source table second, and then for each rank the compiled field it stands for.
   */
  lemma ClauseContents(q: Query, forced: bool, r: Renderer)
    requires Compile(q, forced, r).Success?
    ensures |Compile(q, forced, r).value| >= 2
    ensures Compile(q, forced, r).value[0] == SelectClause(SelectList(q, r))
    ensures q.table.Name? ==> Compile(q, forced, r).value[1] == FromRaw(Raw("??", [Ident(q.table.name)]))
    ensures q.table.Nested? ==>
      Compile(TemporaryTable(q.table), true, r).Success? &&
      Compile(q, forced, r).value[1] == FromQuery(Compile(TemporaryTable(q.table), true, r).value)
    ensures FieldClauses(q, r, Compile(q, forced, r).value[2..])
  {
    CompiledStatement(q, forced, r);
    AttachedContents(q, r, 9);
    var s := Compile(q, forced, r).value;
    assert s[2..] == Attached(q, r, 9);
  }

  /** A limit or offset of 0 is falsy, so no LIMIT or OFFSET clause is attached for it. */
  lemma ZeroLimitOffsetOmitted(q: Query, forced: bool, r: Renderer)
    requires Compile(q, forced, r).Success?
    ensures q.limit == Some(0) ==> !HasRank(Compile(q, forced, r).value, 7)
    ensures q.offset == Some(0) ==> !HasRank(Compile(q, forced, r).value, 8)
  {
    ClausePresence(q, forced, r, 7);
    ClausePresence(q, forced, r, 8);
  }

  /**
   * The select list is the compiled columns in order (`*` when none are
   * given), with the DISTINCT fragment appended after them.
   */
  lemma SelectListShape(q: Query, r: Renderer)
    ensures var columns := if q.columns.None? then [Plain("*", None, None)] else q.columns.value;
      var items := SelectList(q, r);
      |items| == |columns| + (if q.distinct.Some? then 1 else 0) &&
      (forall i :: 0 <= i < |columns| ==> items[i] == r.column(columns[i])) &&
      (q.distinct.Some? ==> items[|columns|] == DistinctFragment(q.distinct.value, r))
  {
  }

  /** GROUP BY: one `?` per column, comma-joined, bound to the compiled columns in order. */
  lemma GroupByFragmentShape(groups: seq<Column>, r: Renderer)
    ensures var f := GroupByFragment(groups, r);
      f.text == JoinWith(Marks(|groups|), ",") &&
      Placeholders(f.text) == |f.bindings| == |groups| &&
      forall i :: 0 <= i < |groups| ==> f.bindings[i] == Frag(r.column(groups[i]))
  {
    MarksPlaceholders(|groups|, ",");
  }

  /**
   * DISTINCT: one `?` per column joined by `, `, bound to the compiled columns
   * in order; with `on`, a leading `ON (?)` bound to the compiled `on` column.
   */
  lemma DistinctFragmentShape(d: Distinct, r: Renderer)
    ensures var f := DistinctFragment(d, r);
      var spots := JoinWith(Marks(|d.columns|), ", ");
      Placeholders(f.text) == |f.bindings| == |d.columns| + (if d.on.Some? then 1 else 0) &&
      (d.on.Some? ==> f.text == "DISTINCT ON (?) " + spots &&
                      f.bindings[0] == Frag(r.column(d.on.value)) &&
                      forall i :: 0 <= i < |d.columns| ==> f.bindings[i + 1] == Frag(r.column(d.columns[i]))) &&
      (d.on.None? ==> f.text == "DISTINCT " + spots &&
                      forall i :: 0 <= i < |d.columns| ==> f.bindings[i] == Frag(r.column(d.columns[i])))
  {
    var spots := JoinWith(Marks(|d.columns|), ", ");
    MarksPlaceholders(|d.columns|, ", ");
    if d.on.Some? {
      DistinctOnPlaceholders(spots);
    } else {
      PlaceholdersAfterPlain("DISTINCT ", spots);
    }
  }

  /** Every child compiler yields balanced fragments. */
  ghost predicate RendererBalanced(r: Renderer) {
    (forall c :: Balanced(r.column(c))) && (forall f :: Balanced(r.filter(f))) &&
    (forall j :: Balanced(r.join(j))) && (forall o :: Balanced(r.orderBy(o)))
  }

  /** Every fragment a clause holds, down into a nested statement, is balanced. */
  predicate ClauseBalanced(c: Clause)
    decreases c
  {
    match c
    case SelectClause(items) => forall i :: 0 <= i < |items| ==> Balanced(items[i])
    case FromRaw(source) => Balanced(source)
    case FromQuery(s) => forall i :: 0 <= i < |s| ==> ClauseBalanced(s[i])
    case JoinClause(f) => Balanced(f)
    case WhereClause(f) => Balanced(f)
    case GroupByClause(f) => Balanced(f)
    case HavingClause(f) => Balanced(f)
    case OrderByClause(f) => Balanced(f)
    case LimitClause(_) => true
    case OffsetClause(_) => true
  }

  /**
   * With child compilers that keep placeholders and bindings in step, so does
   * the whole compiled statement, nested derived table included.
   */
  lemma {:induction false} CompiledBalanced(q: Query, forced: bool, r: Renderer)
    requires RendererBalanced(r) && Compile(q, forced, r).Success?
    ensures var s := Compile(q, forced, r).value;
      forall i :: 0 <= i < |s| ==> ClauseBalanced(s[i])
    decreases if SubqueryMode(q.action, forced) then 0 else 1
  {
    var s := Compile(q, forced, r).value;
    ClauseContents(q, forced, r);
    SelectListShape(q, r);
    if q.distinct.Some? {
      DistinctFragmentShape(q.distinct.value, r);
    }
    assert ClauseBalanced(s[0]);
    if q.table.Name? {
      assert Placeholders("??") == 1;
    } else {
      CompiledNestingDepth(q, forced, r);
      CompiledBalanced(TemporaryTable(q.table), true, r);
    }
    assert ClauseBalanced(s[1]);
    forall i | 2 <= i < |s|
      ensures ClauseBalanced(s[i])
    {
      assert s[i] == s[2..][i - 2];
      if s[i].GroupByClause? {
        GroupByFragmentShape(q.groupBy.value, r);
      }
    }
  }
}
