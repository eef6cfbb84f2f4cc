/**
 * The filter-to-SQL builder at the start of `Recipe.findAll`
 * (src/models/Recipe.js): a fixed base query, then one clause with a numbered
 * placeholder per truthy filter, cuisine first, difficulty second. The result
 * is the query text and its parameter list, as handed to the database.
 */
module Recipe {
  import opened Wrappers
  import opened JsText

  /** The `filters` object; `None` is a missing (`undefined`) property. */
  datatype Filters = Filters(cuisine: Option<string>, difficulty: Option<string>)

  const BaseQuery := "SELECT * FROM recipes WHERE 1=1"
  const BaseWords := ["SELECT", "*", "FROM", "recipes", "WHERE", "1=1"]
  const CuisineColumn := "cuisine_type"
  const DifficultyColumn := "difficulty"

  /** The placeholder `$k` that refers to the k-th parameter. */
  function Placeholder(k: nat): (p: string)
    ensures |p| > 0 && p[0] == '$' && ' ' !in p
  {
    "$" + NatToString(k)
  }

  /** The clause ` AND <column> = $k`. */
  function Clause(column: string, k: nat): string {
    " AND " + column + " = " + Placeholder(k)
  }

  /** One clause per column, numbered from `first`. */
  function Clauses(columns: seq<string>, first: nat): string
    decreases |columns|
  {
    if columns == [] then "" else Clause(columns[0], first) + Clauses(columns[1..], first + 1)
  }

  /** The query text for a list of filtered columns: the base query and one clause each. */
  function QueryText(columns: seq<string>): string {
    BaseQuery + Clauses(columns, 1)
  }

  /** The columns whose filters are truthy, in the order the builder tests them. */
  function ActiveColumns(f: Filters): seq<string> {
    (if IsTruthyString(f.cuisine) then [CuisineColumn] else [])
    + (if IsTruthyString(f.difficulty) then [DifficultyColumn] else [])
  }

  /** The values of the truthy filters, in the same order. */
  function ActiveValues(f: Filters): seq<string> {
    (if IsTruthyString(f.cuisine) then [f.cuisine.value] else [])
    + (if IsTruthyString(f.difficulty) then [f.difficulty.value] else [])
  }

  /** The filter a column is compared against. */
  function ColumnValue(f: Filters, column: string): Option<string> {
    if column == CuisineColumn then f.cuisine
    else if column == DifficultyColumn then f.difficulty
    else None
  }

  /**
   * Lines 5-21 of `findAll`: builds the query and its parameters step by step.
   * `paramCount` is the counter's final value.
   */
  method FindAllQuery(filters: Filters) returns (query: string, params: seq<string>, paramCount: nat)
    ensures query == QueryText(ActiveColumns(filters))
    ensures params == ActiveValues(filters)
    ensures paramCount == |params| + 1
  {
    query := BaseQuery;
    params := [];
    paramCount := 1;

    if IsTruthyString(filters.cuisine) {
      AppendClause(query, CuisineColumn, paramCount);
      query := query + " AND " + CuisineColumn + " = $" + NatToString(paramCount);
      params := params + [filters.cuisine.value];
      paramCount := paramCount + 1;
    }

    if IsTruthyString(filters.difficulty) {
      AppendClause(query, DifficultyColumn, paramCount);
      query := query + " AND " + DifficultyColumn + " = $" + NatToString(paramCount);
      params := params + [filters.difficulty.value];
      paramCount := paramCount + 1;
    }

    ClausesAppend(ActiveColumns(filters));
  }

  /** How the clause text grows when a column is added at the end. */
  lemma ClausesAppend(columns: seq<string>)
    requires |columns| <= 2
    ensures |columns| == 0 ==> Clauses(columns, 1) == ""
    ensures |columns| == 1 ==> Clauses(columns, 1) == Clause(columns[0], 1)
    ensures |columns| == 2 ==> Clauses(columns, 1) == Clause(columns[0], 1) + Clause(columns[1], 2)
  {
    if |columns| == 2 {
      assert columns[1..][1..] == [];
      assert Clauses(columns[1..], 2) == Clause(columns[1], 2) + "";
    } else if |columns| == 1 {
      assert columns[1..] == [];
      assert Clauses(columns, 1) == Clause(columns[0], 1) + "";
    }
  }

  lemma AppendClause(query: string, column: string, k: nat)
    ensures query + " AND " + column + " = $" + NatToString(k) == query + Clause(column, k)
  {
  }

  // ---------------------------------------------------------------------------
  // Reading the bindings back from the query text

  /** A clause of the query: `column` is compared with the parameter numbered `placeholder`. */
  datatype Binding = Binding(column: string, placeholder: nat)

  /** The bindings the clauses for `columns` should carry, numbered from `first`. */
  function Numbered(columns: seq<string>, first: nat): (bs: seq<Binding>)
    ensures |bs| == |columns|
    ensures forall i :: 0 <= i < |bs| ==> bs[i] == Binding(columns[i], first + i)
    decreases |columns|
  {
    if columns == [] then [] else [Binding(columns[0], first)] + Numbered(columns[1..], first + 1)
  }

  /** The words of the clauses, four per clause. */
  function ClauseWords(columns: seq<string>, first: nat): seq<string>
    decreases |columns|
  {
    if columns == [] then []
    else ["AND", columns[0], "=", Placeholder(first)] + ClauseWords(columns[1..], first + 1)
  }

  /** Reads `AND <column> = $k` groups of words back into bindings. */
  function ParseClauseWords(w: seq<string>): Option<seq<Binding>>
    decreases |w|
  {
    if w == [] then Some([])
    else if |w| >= 4 && w[0] == "AND" && w[2] == "=" && |w[3]| > 0 && w[3][0] == '$' then
      match (ParseNat(w[3][1..]), ParseClauseWords(w[4..]))
      case (Some(k), Some(rest)) => Some([Binding(w[1], k)] + rest)
      case _ => None
    else None
  }

  /** The bindings of a query text that starts with the base query, or `None`. */
  function ParseQuery(query: string): Option<seq<Binding>> {
    var w := Words(query);
    if |w| >= |BaseWords| && w[..|BaseWords|] == BaseWords then ParseClauseWords(w[|BaseWords|..])
    else None
  }

  /** A column name is one word. */
  predicate IsColumnName(column: string) {
    ' ' !in column
  }

  /** A clause is a space followed by its four words. */
  lemma ClauseJoin(column: string, k: nat)
    ensures Clause(column, k) == " " + Join(["AND", column, "=", Placeholder(k)])
  {
    assert " AND " == " " + "AND" + " ";
    assert " = " == " " + "=" + " ";
    var p := Placeholder(k);
    assert Join([p]) == p;
    assert ["=", p][1..] == [p];
    assert Join(["=", p]) == "=" + " " + p;
    assert [column, "=", p][1..] == ["=", p];
    assert Join([column, "=", p]) == column + " " + ("=" + " " + p);
    assert ["AND", column, "=", p][1..] == [column, "=", p];
    assert Join(["AND", column, "=", p]) == "AND" + " " + (column + " " + ("=" + " " + p));
  }

  lemma {:induction false} ClausesJoin(columns: seq<string>, first: nat)
    requires columns != []
    ensures Clauses(columns, first) == " " + Join(ClauseWords(columns, first))
    decreases |columns|
  {
    var rest := columns[1..];
    var head := ["AND", columns[0], "=", Placeholder(first)];
    var clause := Clause(columns[0], first);
    assert clause == " " + Join(head) by { ClauseJoin(columns[0], first); }
    assert ClauseWords(columns, first) == head + ClauseWords(rest, first + 1);
    assert Clauses(columns, first) == clause + Clauses(rest, first + 1);
    if rest == [] {
      assert head + ClauseWords(rest, first + 1) == head;
      assert clause + Clauses(rest, first + 1) == clause;
    } else {
      var tail := ClauseWords(rest, first + 1);
      assert Clauses(rest, first + 1) == " " + Join(tail) by { ClausesJoin(rest, first + 1); }
      assert Join(head + tail) == Join(head) + " " + Join(tail) by { JoinAppend(head, tail); }
    }
  }

  lemma {:induction false} ClauseWordsNoSpaces(columns: seq<string>, first: nat)
    requires forall i :: 0 <= i < |columns| ==> IsColumnName(columns[i])
    ensures NoSpaces(ClauseWords(columns, first))
    decreases |columns|
  {
    if columns != [] {
      ClauseWordsNoSpaces(columns[1..], first + 1);
      var head := ["AND", columns[0], "=", Placeholder(first)];
      assert NoSpaces(head);
      assert ClauseWords(columns, first) == head + ClauseWords(columns[1..], first + 1);
    }
  }

  lemma BaseQueryJoin()
    ensures BaseQuery == Join(BaseWords) && NoSpaces(BaseWords)
  {
  }

  /** The words of a built query: the base query's, then four per clause. */
  lemma QueryWords(columns: seq<string>)
    requires forall i :: 0 <= i < |columns| ==> IsColumnName(columns[i])
    ensures Words(QueryText(columns)) == BaseWords + ClauseWords(columns, 1)
  {
    BaseQueryJoin();
    JoinedQueryWords(BaseQuery, BaseWords, columns);
  }

  lemma JoinedQueryWords(base: string, baseWords: seq<string>, columns: seq<string>)
    requires |baseWords| > 0 && NoSpaces(baseWords) && base == Join(baseWords)
    requires forall i :: 0 <= i < |columns| ==> IsColumnName(columns[i])
    ensures Words(base + Clauses(columns, 1)) == baseWords + ClauseWords(columns, 1)
  {
    ClauseWordsNoSpaces(columns, 1);
    var cw := ClauseWords(columns, 1);
    if columns == [] {
      assert base + Clauses(columns, 1) == Join(baseWords);
      assert baseWords + cw == baseWords;
    } else {
      ClausesJoin(columns, 1);
      JoinAppend(baseWords, cw);
      assert base + Clauses(columns, 1) == Join(baseWords + cw);
    }
    assert NoSpaces(baseWords + cw);
    WordsJoin(baseWords + cw);
  }

  lemma {:induction false} ClauseWordsRoundTrip(columns: seq<string>, first: nat)
    ensures ParseClauseWords(ClauseWords(columns, first)) == Some(Numbered(columns, first))
    decreases |columns|
  {
    if columns != [] {
      var w := ClauseWords(columns, first);
      ClauseWordsRoundTrip(columns[1..], first + 1);
      NatToStringRoundTrip(first);
      assert w[3][1..] == NatToString(first);
      assert w[4..] == ClauseWords(columns[1..], first + 1);
    }
  }

  /** Reading the bindings back from a built query recovers each column with its number. */
  lemma ParseQueryRoundTrip(columns: seq<string>)
    requires forall i :: 0 <= i < |columns| ==> IsColumnName(columns[i])
    ensures ParseQuery(QueryText(columns)) == Some(Numbered(columns, 1))
  {
    QueryWords(columns);
    var w := BaseWords + ClauseWords(columns, 1);
    assert w[..|BaseWords|] == BaseWords;
    assert w[|BaseWords|..] == ClauseWords(columns, 1);
    ClauseWordsRoundTrip(columns, 1);
  }

  // ---------------------------------------------------------------------------
  // Properties of the built query

  /**
   * Every placeholder `$k` of the built query refers to `params[k-1]`: the
   * clauses are numbered 1, 2, … in order, one per parameter, and the k-th
   * parameter is the value of the filter on the column the k-th clause tests.
   */
  lemma PlaceholdersReferToParams(f: Filters)
    ensures var bindings := ParseQuery(QueryText(ActiveColumns(f)));
      && bindings.Some?
      && |bindings.value| == |ActiveValues(f)|
      && forall i :: 0 <= i < |bindings.value| ==>
           && bindings.value[i].placeholder == i + 1
           && ColumnValue(f, bindings.value[i].column) == Some(ActiveValues(f)[i])
  {
    var columns := ActiveColumns(f);
    ParseQueryRoundTrip(columns);
  }

  /** The query always starts with the base query. */
  lemma QueryStartsWithBase(f: Filters)
    ensures BaseQuery <= QueryText(ActiveColumns(f))
  {
  }

  /** With no truthy filter, and only then, the query is the base query and there are no parameters. */
  lemma NoFiltersGivesBaseQuery(f: Filters)
    ensures (!IsTruthyString(f.cuisine) && !IsTruthyString(f.difficulty))
      <==> (QueryText(ActiveColumns(f)) == BaseQuery && ActiveValues(f) == [])
  {
    var columns := ActiveColumns(f);
    if columns != [] {
      assert |QueryText(columns)| > |BaseQuery|;
    } else {
      assert QueryText(columns) == BaseQuery + "";
    }
  }

  /** One parameter per truthy filter, so at most two; one clause per parameter. */
  lemma ParamsCount(f: Filters)
    ensures |ActiveValues(f)| == |ActiveColumns(f)|
    ensures |ActiveValues(f)| == (if IsTruthyString(f.cuisine) then 1 else 0)
                               + (if IsTruthyString(f.difficulty) then 1 else 0)
    ensures |ActiveValues(f)| <= 2
  {
  }

  lemma ClauseTexts()
    ensures Clause(CuisineColumn, 1) == " AND cuisine_type = $1"
    ensures Clause(DifficultyColumn, 1) == " AND difficulty = $1"
    ensures Clause(DifficultyColumn, 2) == " AND difficulty = $2"
  {
    assert NatToString(1) == "1" && NatToString(2) == "2";
  }

  /**
   * The cuisine clause comes before the difficulty clause and the parameters
   * keep that order; a lone filter always takes `$1`.
   */
  lemma ClauseOrder(f: Filters)
    ensures IsTruthyString(f.cuisine) && IsTruthyString(f.difficulty) ==>
      && QueryText(ActiveColumns(f)) == BaseQuery + " AND cuisine_type = $1" + " AND difficulty = $2"
      && ActiveValues(f) == [f.cuisine.value, f.difficulty.value]
    ensures IsTruthyString(f.cuisine) && !IsTruthyString(f.difficulty) ==>
      && QueryText(ActiveColumns(f)) == BaseQuery + " AND cuisine_type = $1"
      && ActiveValues(f) == [f.cuisine.value]
    ensures !IsTruthyString(f.cuisine) && IsTruthyString(f.difficulty) ==>
      && QueryText(ActiveColumns(f)) == BaseQuery + " AND difficulty = $1"
      && ActiveValues(f) == [f.difficulty.value]
  {
    var columns := ActiveColumns(f);
    ClausesAppend(columns);
    ClauseTexts();
    if |columns| == 2 {
      assert columns == [CuisineColumn, DifficultyColumn];
    }
  }

  /**
   * The query text depends only on which filters are truthy, never on their
   * values: the values travel in the parameters alone.
   */
  lemma QueryIgnoresValues(f: Filters, g: Filters)
    requires IsTruthyString(f.cuisine) == IsTruthyString(g.cuisine)
    requires IsTruthyString(f.difficulty) == IsTruthyString(g.difficulty)
    ensures QueryText(ActiveColumns(f)) == QueryText(ActiveColumns(g))
  {
  }
}
