/**
 * The comparison filter compiler: checks the operator against the supported
 * set when a comparison is constructed, and compiles `column operator operand`
 * into a fragment whose only binding is the literal value, if there is one.
 * Identifiers are quoted with backticks, as the sqlite3 dialect renders them.
 */
module CompFilter {
  import opened Wrappers
  import opened Fragments
  import opened Schema

  /** A plain column reference by name, without cast or alias. */
  function PlainColumn(name: string): Column {
    Plain(name, None, None)
  }

  /** Identifier quoting of the sqlite3 dialect. */
  function Quote(id: string): string {
    "`" + id + "`"
  }

  /**
   * The SQL text of a column: `*` as it is, any other name quoted, then
   * `::type` when a cast type is given; a function column is its name followed
   * by its rendered parameters, comma-separated, in parentheses. Aliases only
   * matter in a select list and are not rendered here.
   */
  function RenderColumn(c: Column): (r: string)
    ensures r != []
    ensures c.Plain? && c.name != "*" ==> r[0] == '`'
    ensures c.Plain? && c.castType.None? ==> r == "*" || r == Quote(c.name)
    ensures c.Func? ==> c.fn + "(" <= r && r[|r| - 1] == ')'
    decreases c
  {
    match c
    case Plain(name, castType, _) =>
      (if name == "*" then "*" else Quote(name)) + (if castType.Some? then "::" + castType.value else "")
    case Func(fn, ps, _) =>
      fn + "(" + JoinWith(seq(|ps|, i requires 0 <= i < |ps| => RenderColumn(ps[i])), ",") + ")"
  }

  /** No name, cast type or function name in the column contains a `?`. */
  predicate PlainNames(c: Column)
    decreases c
  {
    match c
    case Plain(name, castType, _) => '?' !in name && (castType.Some? ==> '?' !in castType.value)
    case Func(fn, ps, _) => '?' !in fn && forall i :: 0 <= i < |ps| ==> PlainNames(ps[i])
  }

  /** Neither side's names nor the operator contain a `?`. */
  predicate PlainComparison(c: Comparison) {
    PlainNames(c.column) && '?' !in c.operator &&
    (c.operand.RightColumn? ==> PlainNames(c.operand.right))
  }

  /** The message a comparison with an unsupported operator is rejected with. */
  function OperatorMessage(op: string): string {
    "filter operator \"" + op + "\" is not supported."
  }

  /**
   * Constructing a comparison: it is accepted exactly when its operator is one
   * of `ops`, and otherwise rejected with a message naming the operator.
   */
  function NewComparison(c: Comparison, ops: set<string>): (r: Result<Comparison, Error>)
    ensures r.Success? <==> c.operator in ops
    ensures r.Success? ==> r.value == c
    ensures r.Failure? ==> r.error.ValidationError? && r.error.message == OperatorMessage(c.operator)
  {
    if c.operator in ops then Success(c) else Failure(ValidationError(OperatorMessage(c.operator)))
  }

  /**
   * Compiling a comparison: the rendered left column, the operator, and either
   * one `?` bound to the value or the rendered right column with no binding.
   */
  function CompileComparison(c: Comparison): (f: Fragment)
    ensures RenderColumn(c.column) + " " + c.operator + " " <= f.text
    ensures c.operand.Value? ==> f.bindings == [Val(c.operand.value)] && f.text[|f.text| - 1] == '?'
    ensures c.operand.RightColumn? ==>
      f.bindings == [] &&
      |RenderColumn(c.operand.right)| <= |f.text| &&
      f.text[|f.text| - |RenderColumn(c.operand.right)|..] == RenderColumn(c.operand.right)
  {
    var left := RenderColumn(c.column) + " " + c.operator + " ";
    match c.operand
    case Value(v) => Raw(left + "?", [Val(v)])
    case RightColumn(right) => Raw(left + RenderColumn(right), [])
  }

  /** Construct, then build: the comparison compiler as its callers use it. */
  function BuildComparison(c: Comparison, ops: set<string>): (r: Result<Fragment, Error>)
    ensures r.Failure? <==> c.operator !in ops
    ensures r.Failure? ==> r.error == ValidationError(OperatorMessage(c.operator))
    ensures r.Success? ==> r.value == CompileComparison(c)
  {
    match NewComparison(c, ops)
    case Failure(e) => Failure(e)
    case Success(valid) => Success(CompileComparison(valid))
  }

  /** A column whose names are free of `?` renders to text free of `?`. */
  lemma {:induction false} RenderedColumnIsPlain(c: Column)
    requires PlainNames(c)
    ensures '?' !in RenderColumn(c)
    decreases c
  {
    match c
    case Plain(name, castType, _) =>
    case Func(fn, ps, _) =>
      var parts := seq(|ps|, i requires 0 <= i < |ps| => RenderColumn(ps[i]));
      forall i | 0 <= i < |ps|
        ensures '?' !in parts[i]
      {
        RenderedColumnIsPlain(ps[i]);
      }
      JoinWithPlain(parts, ",");
  }

  /** A comparison against a value has exactly one placeholder, bound to that value. */
  lemma ValueComparisonBindsOnce(c: Comparison)
    requires c.operand.Value? && PlainComparison(c)
    ensures CompileComparison(c).bindings == [Val(c.operand.value)]
    ensures CompileComparison(c).text == RenderColumn(c.column) + " " + c.operator + " ?"
    ensures Placeholders(CompileComparison(c).text) == 1
  {
    var left := RenderColumn(c.column) + " " + c.operator + " ";
    RenderedColumnIsPlain(c.column);
    assert '?' !in left;
    PlaceholdersAfterPlain(left, "?");
  }

  /** A comparison against another column has no placeholder and no binding. */
  lemma RightColumnHasNoPlaceholder(c: Comparison)
    requires c.operand.RightColumn? && PlainComparison(c)
    ensures CompileComparison(c).bindings == []
    ensures CompileComparison(c).text == RenderColumn(c.column) + " " + c.operator + " " + RenderColumn(c.operand.right)
    ensures Placeholders(CompileComparison(c).text) == 0
  {
    var text := CompileComparison(c).text;
    RenderedColumnIsPlain(c.column);
    RenderedColumnIsPlain(c.operand.right);
    assert '?' !in text;
    PlaceholdersAfterPlain(text, "");
    assert text + "" == text;
  }

  /** Every compiled comparison has exactly one binding per placeholder. */
  lemma ComparisonBalanced(c: Comparison)
    requires PlainComparison(c)
    ensures Balanced(CompileComparison(c))
  {
    if c.operand.Value? {
      ValueComparisonBindsOnce(c);
    } else {
      RightColumnHasNoPlaceholder(c);
    }
  }

  /** `{column: 'a', operator: '%', value: 2}` is rejected when it is constructed. */
  lemma RejectsPercent(ops: set<string>)
    requires "%" !in ops
    ensures BuildComparison(Comparison(PlainColumn("a"), "%", Value(Num(2))), ops)
         == Failure(ValidationError("filter operator \"%\" is not supported."))
  {
    assert OperatorMessage("%") == "filter operator \"%\" is not supported.";
  }

  /** `{column: 'a', operator: '>', value: 2}` compiles to `` `a` > ? `` bound to `[2]`. */
  lemma ComparesWithValue(ops: set<string>)
    requires ">" in ops
    ensures BuildComparison(Comparison(PlainColumn("a"), ">", Value(Num(2))), ops)
         == Success(Raw("`a` > ?", [Val(Num(2))]))
  {
    assert RenderColumn(PlainColumn("a")) == "`a`";
    assert "`a`" + " " + ">" + " " + "?" == "`a` > ?";
  }

  /** `{column: 'a', operator: '>', rightColumn: {column: 'b'}}` compiles to `` `a` > `b` ``. */
  lemma ComparesWithRightColumn(ops: set<string>)
    requires ">" in ops
    ensures BuildComparison(Comparison(PlainColumn("a"), ">", RightColumn(PlainColumn("b"))), ops)
         == Success(Raw("`a` > `b`", []))
  {
    assert RenderColumn(PlainColumn("a")) == "`a`";
    assert RenderColumn(PlainColumn("b")) == "`b`";
    assert "`a`" + " " + ">" + " " + "`b`" == "`a` > `b`";
  }

  /** `COUNT` over `{column: 'a', type: 'integer'}` compared with `> 24` compiles to ``COUNT(`a`::integer) > ?``. */
  lemma ComparesFunctionColumn(ops: set<string>)
    requires ">" in ops
    ensures BuildComparison(
              Comparison(Func("COUNT", [Plain("a", Some("integer"), None)], None), ">", Value(Num(24))), ops)
         == Success(Raw("COUNT(`a`::integer) > ?", [Val(Num(24))]))
  {
    var param := Plain("a", Some("integer"), None);
    assert RenderColumn(param) == "`a`::integer";
    var parts := seq(1, i requires 0 <= i < 1 => RenderColumn([param][i]));
    assert parts == ["`a`::integer"];
    assert JoinWith(parts, ",") == "`a`::integer";
    var left := RenderColumn(Func("COUNT", [param], None));
    assert left == "COUNT(`a`::integer)";
    assert left + " " + ">" + " " + "?" == "COUNT(`a`::integer) > ?";
  }
}
