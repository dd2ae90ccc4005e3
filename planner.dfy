/**
 * The planner `extract_table_queries` (parser/parser.py:73-224): the five
 * steps composed, first as a function of the parsed query and then as the
 * method that runs them in order on one dictionary.
 */
module Planner {
  import opened Wrappers
  import opened Order
  import opened Ast
  import opened Scopes
  import opened Attribution
  import opened Classification
  import opened Synthesis

  /** The per-alias results of a query with at least one table node. */
  function Plan(q: Select): map<string, TableQuery>
  {
    var scope := Scope(TablesOf(q));
    Results(Pushed(Attributed(scope, ColumnsOf(q)), Conjuncts(Sources(q))))
  }

  /**
   * The planner fails exactly when the query has no table node, and
   * otherwise returns the composed plan.
   */
  method ExtractTableQueries(q: Select) returns (r: Result<map<string, TableQuery>>)
    ensures r.Failure? <==> |TablesOf(q)| == 0
    ensures r.Failure? ==> r.error == "No tables found in query"
    ensures r.Success? ==> r.value == Plan(q)
  {
    var tables := GatherTables(TablesOf(q));
    ScopeEmpty(TablesOf(q));
    if |tables| == 0 {
      return Failure("No tables found in query");
    }
    var unqualified;
    tables, unqualified := AttributeColumns(tables, ColumnsOf(q));
    var sources := GatherSources(q);
    tables := PushPredicates(tables, sources);
    var results := Synthesize(tables);
    return Success(results);
  }

  /** One result per distinct alias of the query's table nodes. */
  lemma PlanKeys(q: Select)
    ensures Plan(q).Keys == set i | 0 <= i < |TablesOf(q)| :: AliasOf(TablesOf(q)[i])
  {
    ScopeKeys(TablesOf(q));
  }

  /**
   * What the result for alias `k` holds: the text of the last table node
   * with that alias; every bare name attributed to it, sorted; every
   * conjunct whose destination it is, in source and flattening order; and
   * a SQL string made of exactly these.
   */
  lemma PlanEntry(q: Select, k: string)
    requires k in Plan(q)
    ensures Plan(q)[k].alias == k
    ensures exists i :: LastWithAlias(TablesOf(q), i, k) && Plan(q)[k].originalTable == TableText(TablesOf(q)[i])
    ensures StrictlySorted(Plan(q)[k].projections)
    ensures Elems(Plan(q)[k].projections) == Gained(Plan(q).Keys, ColumnsOf(q), k)
    ensures Plan(q)[k].pushdown == PushedTo(Plan(q).Keys, Conjuncts(Sources(q)), k)
    ensures Plan(q)[k].sql
      == "SELECT " + SelectList(k, Elems(Plan(q)[k].projections)) + " FROM "
         + FromClause(k, Plan(q)[k].originalTable) + WhereClause(Plan(q)[k].pushdown)
  {
    var scope := Scope(TablesOf(q));
    var attributed := Attributed(scope, ColumnsOf(q));
    var pushed := Pushed(attributed, Conjuncts(Sources(q)));
    assert Plan(q) == Results(pushed);
    assert Plan(q).Keys == scope.Keys;
    ScopeEntry(TablesOf(q), k);
    AttributedEntry(scope, ColumnsOf(q), k);
    PushedEntry(attributed, Conjuncts(Sources(q)), k);
    assert pushed[k].projections == Gained(scope.Keys, ColumnsOf(q), k);
    assert pushed[k].pushdown == PushedTo(scope.Keys, Conjuncts(Sources(q)), k);
    assert Plan(q)[k] == TableQueryFor(k, pushed[k]);
    QueryProjections(k, pushed[k]);
  }
}
