/**
 * The parsed query the planner consumes. The parser library's node types
 * become a closed datatype; its `.sql()` rendering becomes `Render`, and
 * its `find_all(Column)` / `find_all(Table)` / `find_all(Join)` become
 * `ColumnsIn`, `ColumnsOf`, `TablesOf` and the `joins` field.
 */
module Ast {
  import opened Wrappers
  import opened Text

  /** A column reference `qual.name` or `name`. */
  datatype ColumnRef = ColumnRef(qual: Option<string>, name: string)

  /** An expression node. `Paren` is an explicit parenthesised group. */
  datatype Expr =
    | Col(ref: ColumnRef)
    | Lit(text: string)
    | Star
    | And(left: Expr, right: Expr)
    | Or(left: Expr, right: Expr)
    | Binary(op: string, left: Expr, right: Expr)  // comparison or arithmetic
    | Not(arg: Expr)
    | Paren(inner: Expr)
    | Func(fname: string, args: seq<Expr>)

  /**
   * A table node: its dotted name (catalog, schema, table) and the alias
   * the parser reports for it, absent when it reports none or fails.
   */
  datatype TableRef = TableRef(parts: seq<string>, alias: Option<string>)

  /** `JOIN table [ON on]`. */
  datatype Join = Join(table: TableRef, on: Option<Expr>)

  /** `SELECT items [FROM from] joins [WHERE] [GROUP BY] [HAVING] [ORDER BY]`. */
  datatype Select = Select(
    items: seq<Expr>,
    from: Option<TableRef>,
    joins: seq<Join>,
    where: Option<Expr>,
    groupBy: seq<Expr>,
    having: Option<Expr>,
    orderBy: seq<Expr>)

  /** The text of a column node, `"a.id"` or `"id"`. */
  function ColText(c: ColumnRef): string
  {
    if c.qual.Some? then c.qual.value + "." + c.name else c.name
  }

  /** The text of a table node: its parts joined with `.`. */
  function TableText(t: TableRef): string
  {
    JoinWith(".", t.parts)
  }

  /** The generic SQL text of an expression. */
  function Render(e: Expr): string
  {
    match e
    case Col(c) => ColText(c)
    case Lit(t) => t
    case Star => "*"
    case And(l, r) => Render(l) + " AND " + Render(r)
    case Or(l, r) => Render(l) + " OR " + Render(r)
    case Binary(op, l, r) => Render(l) + " " + op + " " + Render(r)
    case Not(a) => "NOT " + Render(a)
    case Paren(a) => "(" + Render(a) + ")"
    case Func(f, args) => f + "(" + RenderArgs(args) + ")"
  }

  function RenderArgs(args: seq<Expr>): string
  {
    if |args| == 0 then ""
    else if |args| == 1 then Render(args[0])
    else Render(args[0]) + ", " + RenderArgs(args[1..])
  }

  /** Every column node inside `e`, `e` itself included. */
  function ColumnsIn(e: Expr): seq<ColumnRef>
  {
    match e
    case Col(c) => [c]
    case Lit(_) => []
    case Star => []
    case And(l, r) => ColumnsIn(l) + ColumnsIn(r)
    case Or(l, r) => ColumnsIn(l) + ColumnsIn(r)
    case Binary(_, l, r) => ColumnsIn(l) + ColumnsIn(r)
    case Not(a) => ColumnsIn(a)
    case Paren(a) => ColumnsIn(a)
    case Func(_, args) => ColumnsInAll(args)
  }

  /**
   * The texts of the column nodes inside `e` (`_columns_in_expr`), one per
   * node and in order; a node whose name has no `.` gives back its own
   * qualifier when its text is split at the last `.`.
   */
  function ColumnTexts(e: Expr): (texts: seq<string>)
    ensures |texts| == |ColumnsIn(e)|
    ensures forall i :: 0 <= i < |texts| ==> texts[i] == ColText(ColumnsIn(e)[i])
    ensures forall i :: 0 <= i < |texts| && '.' !in ColumnsIn(e)[i].name ==>
      QualifierOf(texts[i]) == ColumnsIn(e)[i].qual
  {
    var cols := ColumnsIn(e);
    ColTextsQualifiers(cols);
    seq(|cols|, i requires 0 <= i < |cols| => ColText(cols[i]))
  }

  function ColumnsInAll(es: seq<Expr>): seq<ColumnRef>
  {
    if |es| == 0 then [] else ColumnsIn(es[0]) + ColumnsInAll(es[1..])
  }

  function ColumnsInOpt(e: Option<Expr>): seq<ColumnRef>
  {
    if e.Some? then ColumnsIn(e.value) else []
  }

  function ColumnsInJoins(js: seq<Join>): seq<ColumnRef>
  {
    if |js| == 0 then [] else ColumnsInOpt(js[0].on) + ColumnsInJoins(js[1..])
  }

  /** Every column node of the query. */
  function ColumnsOf(q: Select): seq<ColumnRef>
  {
    ColumnsInAll(q.items) + ColumnsInJoins(q.joins) + ColumnsInOpt(q.where)
    + ColumnsInAll(q.groupBy) + ColumnsInOpt(q.having) + ColumnsInAll(q.orderBy)
  }

  /** Every table node of the query: the FROM table, then each joined table. */
  function TablesOf(q: Select): (ts: seq<TableRef>)
    ensures |ts| == (if q.from.Some? then 1 else 0) + |q.joins|
    ensures q.from.Some? ==> ts[0] == q.from.value
    ensures forall i :: 0 <= i < |q.joins| ==> ts[|ts| - |q.joins| + i] == q.joins[i].table
  {
    (if q.from.Some? then [q.from.value] else []) + seq(|q.joins|, i requires 0 <= i < |q.joins| => q.joins[i].table)
  }

  /**
   * A qualified column's text splits back into its qualifier at the last
   * `.` when its name has no `.`, and into its name at the first `.` when
   * its qualifier has none.
   */
  lemma ColTextSplits(q: string, n: string)
    ensures '.' !in n ==> QualifierOf(ColText(ColumnRef(Some(q), n))) == Some(q)
    ensures '.' !in q ==> BareName(ColText(ColumnRef(Some(q), n))) == n
  {
    if '.' !in n {
      QualifierOfJoin(q, n);
    }
    if '.' !in q {
      BareNameOfJoin(q, n);
    }
  }

  /** A column whose name has no `.` splits back into its own qualifier, or none. */
  lemma ColTextQualifier(c: ColumnRef)
    requires '.' !in c.name
    ensures QualifierOf(ColText(c)) == c.qual
  {
    if c.qual.Some? {
      QualifierOfJoin(c.qual.value, c.name);
    }
  }

  lemma ColTextsQualifiers(cols: seq<ColumnRef>)
    ensures forall i :: 0 <= i < |cols| && '.' !in cols[i].name ==> QualifierOf(ColText(cols[i])) == cols[i].qual
  {
    forall i | 0 <= i < |cols| && '.' !in cols[i].name
      ensures QualifierOf(ColText(cols[i])) == cols[i].qual
    {
      ColTextQualifier(cols[i]);
    }
  }

  /** A column without a qualifier renders without a `.` when its name has none. */
  lemma ColTextUnqualified(n: string)
    requires '.' !in n
    ensures QualifierOf(ColText(ColumnRef(None, n))).None?
  {
  }
}
