/**
 * Step 5 of the planner: one result per dictionary entry, with its
 * projections sorted and a per-table SQL string
 * `SELECT <list> FROM <table>[ AS <alias>][ WHERE <p> AND ...]`
 * (parser/parser.py:196-222).
 */
module Synthesis {
  import opened Wrappers
  import opened Text
  import opened Order
  import opened Scopes

  /** What the planner returns for one alias. */
  datatype TableQuery = TableQuery(
    originalTable: string,
    alias: string,
    projections: seq<string>,
    pushdown: seq<string>,
    sql: string)

  /**
   * The columns `cols`, each written `alias.column`, in order: an item
   * whose column has no `.` splits back into the alias at its last `.`,
   * and, when the alias has no `.`, every item splits back into its column
   * at its first `.`.
   */
  function Prefixed(alias: string, cols: seq<string>): (r: seq<string>)
    ensures |r| == |cols|
    ensures forall i :: 0 <= i < |cols| ==> r[i] == alias + "." + cols[i]
    ensures forall i :: 0 <= i < |cols| ==> '.' in r[i]
    ensures forall i :: 0 <= i < |cols| && '.' !in cols[i] ==> QualifierOf(r[i]) == Some(alias)
    ensures '.' !in alias ==> forall i :: 0 <= i < |cols| ==> BareName(r[i]) == cols[i]
  {
    PrefixedSplits(alias, cols);
    seq(|cols|, i requires 0 <= i < |cols| => alias + "." + cols[i])
  }

  lemma PrefixedSplits(alias: string, cols: seq<string>)
    ensures forall i :: 0 <= i < |cols| ==> '.' in alias + "." + cols[i]
    ensures forall i :: 0 <= i < |cols| && '.' !in cols[i] ==> QualifierOf(alias + "." + cols[i]) == Some(alias)
    ensures '.' !in alias ==> forall i :: 0 <= i < |cols| ==> BareName(alias + "." + cols[i]) == cols[i]
  {
    forall i | 0 <= i < |cols|
      ensures '.' in alias + "." + cols[i]
      ensures '.' !in cols[i] ==> QualifierOf(alias + "." + cols[i]) == Some(alias)
      ensures '.' !in alias ==> BareName(alias + "." + cols[i]) == cols[i]
    {
      assert (alias + "." + cols[i])[|alias|] == '.';
      if '.' !in cols[i] {
        QualifierOfJoin(alias, cols[i]);
      }
      if '.' !in alias {
        BareNameOfJoin(alias, cols[i]);
      }
    }
  }

  /**
   * A column that itself holds a `.` (`z.id` under alias `t`) does not
   * split back into the alias: its item's last `.` is the column's own,
   * and the qualifier found there is the alias, `.`, and the column's
   * qualifier.
   */
  lemma PrefixedDotted(alias: string, cols: seq<string>, i: int)
    requires 0 <= i < |cols| && '.' in cols[i]
    ensures QualifierOf(Prefixed(alias, cols)[i]) == Some(alias + "." + QualifierOf(cols[i]).value)
    ensures QualifierOf(Prefixed(alias, cols)[i]) != Some(alias)
  {
    var c := cols[i];
    var q := QualifierOf(c).value;
    var t := c[|q| + 1..];
    QualifierSplit(c);
    assert alias + "." + c == (alias + "." + q) + "." + t;
    QualifierOfJoin(alias + "." + q, t);
  }

  /** The select list: `*` without projections, else the sorted prefixed columns. */
  function SelectList(alias: string, proj: set<string>): string
  {
    if proj == {} then "*" else JoinWith(", ", Prefixed(alias, SortedOf(proj)))
  }

  /** The table text, followed by ` AS alias` when the alias is not its last component. */
  function FromClause(alias: string, original: string): string
  {
    if alias != LastComponent(original) then original + " AS " + alias else original
  }

  /** Nothing without pushed predicates, else ` WHERE ` and the predicates joined by ` AND `. */
  function WhereClause(preds: seq<string>): string
  {
    if |preds| == 0 then "" else " WHERE " + JoinWith(" AND ", preds)
  }

  function PerTableSql(alias: string, e: Entry): string
  {
    "SELECT " + SelectList(alias, e.projections) + " FROM " + FromClause(alias, e.originalTable)
    + WhereClause(e.pushdown)
  }

  function TableQueryFor(alias: string, e: Entry): TableQuery
  {
    TableQuery(e.originalTable, alias, SortedOf(e.projections), e.pushdown, PerTableSql(alias, e))
  }

  /** The result dictionary built from the final per-alias dictionary. */
  function Results(tables: map<string, Entry>): (r: map<string, TableQuery>)
    ensures r.Keys == tables.Keys
  {
    map k | k in tables :: TableQueryFor(k, tables[k])
  }

  /** The body of the synthesis loop: the result for one entry. */
  method TableQueryOf(alias: string, meta: Entry) returns (query: TableQuery)
    ensures query == TableQueryFor(alias, meta)
  {
    var proj := meta.projections;
    var selectList := "*";
    if proj != {} {
      selectList := JoinWith(", ", Prefixed(alias, SortedOf(proj)));
    }
    var fromClause := meta.originalTable;
    if alias != LastComponent(fromClause) {
      fromClause := fromClause + " AS " + alias;
    }
    var whereClause := "";
    if |meta.pushdown| > 0 {
      whereClause := " WHERE " + JoinWith(" AND ", meta.pushdown);
    }
    var perSql := "SELECT " + selectList + " FROM " + fromClause + whereClause;
    assert perSql == PerTableSql(alias, meta);
    query := TableQuery(meta.originalTable, alias, SortedOf(proj), meta.pushdown, perSql);
  }

  /** Every result in `results` is the result for its entry of `tables`. */
  predicate Agrees(tables: map<string, Entry>, results: map<string, TableQuery>)
  {
    forall k :: k in results ==> k in tables && results[k] == TableQueryFor(k, tables[k])
  }

  lemma AgreesStep(tables: map<string, Entry>, results: map<string, TableQuery>, alias: string, query: TableQuery)
    requires Agrees(tables, results)
    requires alias in tables && query == TableQueryFor(alias, tables[alias])
    ensures Agrees(tables, results[alias := query])
  {
  }

  /** The loop that fills `per_table_results` (parser/parser.py:196-222). */
  method Synthesize(tables: map<string, Entry>) returns (results: map<string, TableQuery>)
    ensures results == Results(tables)
  {
    results := map[];
    var remaining := tables.Keys;
    while remaining != {}
      invariant remaining <= tables.Keys
      invariant forall k :: k in results <==> k in tables && k !in remaining
      invariant Agrees(tables, results)
      decreases |remaining|
    {
      var alias :| alias in remaining;
      var query := TableQueryOf(alias, tables[alias]);
      AgreesStep(tables, results, alias, query);
      results := results[alias := query];
      remaining := remaining - {alias};
    }
    ResultsAgree(tables, results);
  }

  /** A dictionary with the keys of `tables` that agrees with it is the result dictionary. */
  lemma ResultsAgree(tables: map<string, Entry>, results: map<string, TableQuery>)
    requires results.Keys == tables.Keys && Agrees(tables, results)
    ensures results == Results(tables)
  {
  }

  /** The select list is `*` exactly when no projection was attributed. */
  lemma SelectListStar(alias: string, proj: set<string>)
    ensures SelectList(alias, proj) == "*" <==> proj == {}
  {
    if proj != {} {
      var cols := Prefixed(alias, SortedOf(proj));
      var first := cols[0];
      var s := JoinWith(", ", cols);
      JoinWithPrefix(", ", cols);
      assert |first| >= |alias| + 1 && first[|alias|] == '.';
      assert s[..|first|] == first;
      assert |s| >= 2 || s[0] == '.';
    }
  }

  /**
   * With projections, the select list is the prefixed columns in any
   * strictly ascending order of the projection set: the order is the
   * sorted order and each column appears once.
   */
  lemma SelectListSorted(alias: string, proj: set<string>, cols: seq<string>)
    requires StrictlySorted(cols) && Elems(cols) == proj && proj != {}
    ensures SelectList(alias, proj) == JoinWith(", ", Prefixed(alias, cols))
  {
    StrictlySortedUnique(cols, SortedOf(proj));
  }

  /** ` AS alias` is appended exactly when the alias differs from the table's last component. */
  lemma FromClauseAlias(alias: string, original: string)
    ensures FromClause(alias, original) == original <==> alias == LastComponent(original)
    ensures alias != LastComponent(original) ==> FromClause(alias, original) == original + " AS " + alias
    ensures alias != LastComponent(original) ==> FromClause(alias, original)[..|original|] == original
  {
    if alias != LastComponent(original) {
      assert |FromClause(alias, original)| > |original|;
    }
  }

  /** A WHERE clause appears exactly when some predicate was pushed. */
  lemma WhereClauseEmpty(preds: seq<string>)
    ensures WhereClause(preds) == "" <==> preds == []
  {
    if preds != [] {
      assert |WhereClause(preds)| >= |" WHERE "|;
    }
  }

  /**
   * The WHERE clause keeps the pushed predicates in their order: the clause
   * for two runs of predicates is the clause of the first, ` AND `, and the
   * second run joined.
   */
  lemma WhereClauseAppend(xs: seq<string>, ys: seq<string>)
    requires |xs| > 0 && |ys| > 0
    ensures WhereClause(xs + ys) == WhereClause(xs) + " AND " + JoinWith(" AND ", ys)
  {
    JoinWithAppend(" AND ", xs, ys);
  }

  /** The returned projections list is the projection set in strictly ascending order. */
  lemma QueryProjections(alias: string, e: Entry)
    ensures StrictlySorted(TableQueryFor(alias, e).projections)
    ensures Elems(TableQueryFor(alias, e).projections) == e.projections
    ensures TableQueryFor(alias, e).sql
      == "SELECT " + SelectList(alias, Elems(TableQueryFor(alias, e).projections)) + " FROM "
         + FromClause(alias, e.originalTable) + WhereClause(TableQueryFor(alias, e).pushdown)
  {
  }
}
